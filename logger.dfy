/**
 * The logger's two decisions: whether a message is written at all, and
 * how the context is masked before it is. Timestamps, JSON encoding and
 * the file write are not modelled.
 */
module Logger {
  import opened Php

  /** The debug configuration the logger is built with. */
  datatype DebugConfig = DebugConfig(enableDebug: bool, logLevels: Option<seq<string>>, maskSensitiveFields: Option<seq<string>>)

  /** The shipped debug configuration; `enable_debug` follows WP_DEBUG. */
  function ConfiguredDebug(wpDebug: bool): DebugConfig
  {
    DebugConfig(wpDebug, Some(["error", "warning", "info"]), Some(["cpf", "email", "email_login", "matricula", "telefone"]))
  }

  const Masked: string := "***MASKED***"

  /** The key matches one of the sensitive fields, ignoring ASCII case (`strcasecmp`). */
  predicate ShouldMask(key: string, sensitive: seq<string>)
  {
    exists j :: 0 <= j < |sensitive| && CaseInsensitiveEqual(key, sensitive[j])
  }

  /** The value one entry of an array takes after masking. */
  function MaskEntry(key: string, value: Value, sensitive: seq<string>): Value
    decreases value, 1
  {
    if ShouldMask(key, sensitive) && !EmptyValue(value) then Str(Masked)
    else if value.Arr? then MaskSensitiveData(value, sensitive)
    else value
  }

  /**
   * `maskSensitiveData`: a non-empty value under a sensitive key becomes
   * '***MASKED***', a nested array elsewhere is masked in turn, and every
   * other value is copied; a non-array, or an empty sensitive list,
   * passes through unchanged.
   */
  function MaskSensitiveData(data: Value, sensitive: seq<string>): (r: Value)
    ensures sensitive == [] || !data.Arr? ==> r == data
    ensures r.Arr? <==> data.Arr?
    ensures data.Arr? ==> |r.entries| == |data.entries| && Keys(r.entries) == Keys(data.entries)
    decreases data, 0
  {
    if sensitive == [] || !data.Arr? then data
    else
      var es := data.entries;
      var r := seq(|es|, i requires 0 <= i < |es| => (es[i].0, MaskEntry(es[i].0, es[i].1, sensitive)));
      assert Keys(r) == Keys(es);
      Arr(r)
  }

  /** Entry by entry, what masking puts under each key. */
  lemma MaskedEntries(data: Value, sensitive: seq<string>, i: int)
    requires data.Arr? && sensitive != [] && 0 <= i < |data.entries|
    ensures var (k, v) := data.entries[i];
      var w := MaskSensitiveData(data, sensitive).entries[i].1;
      (ShouldMask(k, sensitive) && !EmptyValue(v) ==> w == Str(Masked))
      && (!(ShouldMask(k, sensitive) && !EmptyValue(v)) && v.Arr? ==> w == MaskSensitiveData(v, sensitive))
      && (!(ShouldMask(k, sensitive) && !EmptyValue(v)) && !v.Arr? ==> w == v)
  {
  }

  /** No non-empty value under a sensitive key, at any depth. */
  predicate NoLeak(v: Value, sensitive: seq<string>)
    decreases v
  {
    v.Arr? ==> forall i :: 0 <= i < |v.entries| ==>
      (ShouldMask(v.entries[i].0, sensitive) ==> EmptyValue(v.entries[i].1) || v.entries[i].1 == Str(Masked))
      && NoLeak(v.entries[i].1, sensitive)
  }

  /** With a non-empty sensitive list, masked data leaks nothing at any depth. */
  lemma {:induction false} MaskingLeaksNothing(data: Value, sensitive: seq<string>)
    requires sensitive != []
    ensures NoLeak(MaskSensitiveData(data, sensitive), sensitive)
    decreases data
  {
    if data.Arr? {
      var r := MaskSensitiveData(data, sensitive);
      forall i | 0 <= i < |r.entries|
        ensures NoLeak(r.entries[i].1, sensitive)
      {
        var v := data.entries[i].1;
        MaskedEntries(data, sensitive, i);
        if !(ShouldMask(data.entries[i].0, sensitive) && !EmptyValue(v)) && v.Arr? {
          MaskingLeaksNothing(v, sensitive);
        }
      }
    }
  }

  /** Masking twice is masking once. */
  lemma {:induction false} MaskIdempotent(data: Value, sensitive: seq<string>)
    ensures MaskSensitiveData(MaskSensitiveData(data, sensitive), sensitive) == MaskSensitiveData(data, sensitive)
    decreases data
  {
    if sensitive != [] && data.Arr? {
      var once := MaskSensitiveData(data, sensitive);
      var twice := MaskSensitiveData(once, sensitive);
      forall i | 0 <= i < |data.entries|
        ensures twice.entries[i] == once.entries[i]
      {
        var (k, v) := data.entries[i];
        MaskedEntries(data, sensitive, i);
        MaskedEntries(once, sensitive, i);
        assert once.entries[i].0 == Keys(once.entries)[i] == Keys(data.entries)[i] == k;
        if !(ShouldMask(k, sensitive) && !EmptyValue(v)) && v.Arr? {
          MaskIdempotent(v, sensitive);
          assert EmptyValue(MaskSensitiveData(v, sensitive)) == EmptyValue(v);
        }
      }
    }
  }

  /** A line the logger writes: the upper-cased level, the message and the masked context. */
  datatype LogLine = LogLine(level: string, message: string, context: Value)

  /** The sensitive list in effect (`?? []`). */
  function SensitiveFields(config: DebugConfig): seq<string>
  {
    match config.maskSensitiveFields case Some(fs) => fs case None => []
  }

  /** `log`'s gate: debugging is on and the level is one of the configured levels. */
  predicate ShouldWrite(config: DebugConfig, level: string)
  {
    config.enableDebug && config.logLevels.Some? && level in config.logLevels.value
  }

  /** `log`: the line it writes, if any. */
  function Log(config: DebugConfig, level: string, message: string, context: Value): (line: Option<LogLine>)
    ensures line.Some? <==> ShouldWrite(config, level)
    ensures line.Some? ==>
      line.value.level == ToUpper(level) && line.value.message == message
      && line.value.context == MaskSensitiveData(context, SensitiveFields(config))
  {
    if !config.enableDebug then None
    else if !(config.logLevels.Some? && level in config.logLevels.value) then None
    else Some(LogLine(ToUpper(level), message, MaskSensitiveData(context, SensitiveFields(config))))
  }

  /**
   * With the shipped configuration, nothing is written unless WP_DEBUG is
   * on, debug messages never are, and a written context leaks no
   * sensitive value.
   */
  lemma ConfiguredLogging(wpDebug: bool, level: string, message: string, context: Value)
    ensures !wpDebug ==> Log(ConfiguredDebug(wpDebug), level, message, context).None?
    ensures Log(ConfiguredDebug(wpDebug), "debug", message, context).None?
    ensures var line := Log(ConfiguredDebug(wpDebug), level, message, context);
      line.Some? ==> NoLeak(line.value.context, ["cpf", "email", "email_login", "matricula", "telefone"])
  {
    MaskingLeaksNothing(context, ["cpf", "email", "email_login", "matricula", "telefone"]);
  }
}
