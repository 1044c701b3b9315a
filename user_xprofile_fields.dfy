/**
 * Copying a registration into BuddyBoss xProfile fields
 * (`UserService::storeXProfileFields`).
 *
 * Every key of a fixed mapping is looked up in the registration array; an
 * unset or empty value is skipped, a key without a top-level field row is an
 * error, and any other value is normalised (dates for `datebox` fields,
 * booleans as '1'/'0') and handed to `xprofile_set_field_data`. BuddyBoss's
 * answers are parameters of the model (`Env`).
 *
 * The source also calls `$this->logger->warn(...)` at six places, and the
 * logger has no `warn` method: `RunAsWritten` models that code, where the
 * first such call ends the request with an uncaught `Error`;
 * `StoreXProfileFields` models the evidently intended code, where the calls
 * only log.
 */
module UserXProfileFields {
  import opened Php
  import Types

  /** The registration keys copied into xProfile fields, in order; each form key is also the field key. */
  const FieldMapping: seq<string> := [
    "nome_completo", "cpf", "telefone", "data_nascimento", "genero", "raca_cor", "nome_social",
    "email_pessoal", "email_login", "email_institucional", "acessibilidade", "descricao_acessibilidade",
    "logradouro", "numero", "complemento", "bairro", "cep", "municipio", "estado",
    "instituicao_nome", "escola_nome", "rede_escola", "nap_nome", "curso_nome", "setor_gti",
    "sistema_responsavel", "regiao_responsavel", "departamento", "funcao_eaa"
  ]

  /**
   * What WordPress and BuddyBoss answer:
   * - `xprofileApi`, `memberTypeApi`: whether `xprofile_set_field_data` and `bp_get_member_type` exist;
   * - `memberType`: the user's member type as `bp_get_member_type` returns it;
   * - `typeStable`: whether reading the member type again, just before a save, gives the same value;
   * - `fieldId`: `XProfileFieldSeeder::getFieldId`, 0 standing for false;
   * - `fieldType`: the type of the field row with that id and parent 0, if there is one;
   * - `unassociated`: the member type's field-id list exists, is not empty and leaves the id out;
   * - `parseDate`: `strtotime` succeeding, formatted by `date('Y-m-d 00:00:00', ...)`;
   * - `saves`: whether `xprofile_set_field_data` returns something other than false;
   * - `readBackEmpty`: `xprofile_get_field_data` exists and reads back false, null or ''.
   */
  datatype Env = Env(
    xprofileApi: bool,
    memberTypeApi: bool,
    memberType: Value,
    typeStable: bool,
    fieldId: string -> nat,
    fieldType: nat -> Option<string>,
    unassociated: nat -> bool,
    parseDate: string -> Option<string>,
    saves: (nat, Value) -> bool,
    readBackEmpty: nat -> bool)

  /** `$memberType`: null when `bp_get_member_type` does not exist. */
  function MemberType(env: Env): Value
  {
    if env.memberTypeApi then env.memberType else Null
  }

  // ---------------------------------------------------------------------
  // Dates
  // ---------------------------------------------------------------------

  predicate IsDigit(c: char) { '0' <= c <= '9' }

  predicate AllDigits(s: string)
  {
    forall i :: 0 <= i < |s| ==> IsDigit(s[i])
  }

  /** The text starts like `^(\d{4})-(\d{2})-(\d{2})`. */
  predicate IsoPrefix(s: string)
  {
    |s| >= 10 && AllDigits(s[..4]) && s[4] == '-' && AllDigits(s[5..7]) && s[7] == '-' && AllDigits(s[8..10])
  }

  /** The text starts like `^(\d{2})/(\d{2})/(\d{4})`. */
  predicate SlashPrefix(s: string)
  {
    |s| >= 10 && AllDigits(s[..2]) && s[2] == '/' && AllDigits(s[3..5]) && s[5] == '/' && AllDigits(s[6..10])
  }

  const Midnight: string := " 00:00:00"

  /**
   * The fallback when `strtotime` fails. The captured groups are all digits
   * of exactly the printed width, so `%04d` and `%02d` give them back
   * unchanged: an ISO prefix keeps its first ten characters, a day/month/year
   * prefix is reordered, anything else is left as it is.
   */
  function DateFallback(s: string): (r: string)
  {
    if IsoPrefix(s) then s[..10] + Midnight
    else if SlashPrefix(s) then s[6..10] + "-" + s[3..5] + "-" + s[..2] + Midnight
    else s
  }

  /** A recognised date becomes `YYYY-MM-DD 00:00:00`; anything else is untouched. */
  lemma DateFallbackShape(s: string)
    ensures IsoPrefix(s) || SlashPrefix(s) ==> (IsoPrefix(DateFallback(s)) && |DateFallback(s)| == 19 && DateFallback(s)[10..] == Midnight)
    ensures !IsoPrefix(s) && !SlashPrefix(s) ==> DateFallback(s) == s
  {
    if IsoPrefix(s) {
      IsoShape(s);
    } else if SlashPrefix(s) {
      SlashShape(s);
      var d := s[6..10] + "-" + s[3..5] + "-" + s[..2];
      IsoShape(d);
      assert d[..10] == d;
    }
  }

  /** The first ten characters of an ISO prefix, followed by the time of day, keep the shape. */
  lemma IsoShape(s: string)
    requires IsoPrefix(s)
    ensures IsoPrefix(s[..10] + Midnight) && |s[..10] + Midnight| == 19 && (s[..10] + Midnight)[10..] == Midnight
  {
    var r := s[..10] + Midnight;
    assert r[..4] == s[..4] && r[5..7] == s[5..7] && r[8..10] == s[8..10];
  }

  /** A day/month/year prefix reordered is of ISO shape. */
  lemma SlashShape(s: string)
    requires SlashPrefix(s)
    ensures IsoPrefix(s[6..10] + "-" + s[3..5] + "-" + s[..2])
    ensures |s[6..10] + "-" + s[3..5] + "-" + s[..2]| == 10
  {
    var d := s[6..10] + "-" + s[3..5] + "-" + s[..2];
    assert d[..4] == s[6..10] && d[5..7] == s[3..5] && d[8..10] == s[..2];
    assert d[4] == '-' && d[7] == '-';
  }

  /** Normalising a date twice changes nothing more. */
  lemma DateFallbackIdempotent(s: string)
    ensures DateFallback(DateFallback(s)) == DateFallback(s)
  {
    DateFallbackShape(s);
    var r := DateFallback(s);
    if IsoPrefix(s) || SlashPrefix(s) {
      assert r[..10] + Midnight == r;
    }
  }

  /** The day/month/year form is read with the day first. */
  lemma DateFallbackDayFirst()
    ensures DateFallback("15/01/2024") == "2024-01-15 00:00:00"
  {
    var s := "15/01/2024";
    DayFirstParts(s);
    DayFirstText("2024", "01", "15");
  }

  lemma DayFirstParts(s: string)
    requires s == "15/01/2024"
    ensures SlashPrefix(s) && !IsoPrefix(s)
    ensures s[6..10] == "2024" && s[3..5] == "01" && s[..2] == "15"
  {
    assert s[4] != '-';
  }

  lemma DayFirstText(y: string, m: string, d: string)
    requires y == "2024" && m == "01" && d == "15"
    ensures y + "-" + m + "-" + d + Midnight == "2024-01-15 00:00:00"
  {
  }

  /** `sprintf('%0Nd', n)`: the decimal text, padded with zeros after any sign to at least `width` characters. */
  function PadInt(n: int, width: nat): (r: string)
  {
    var digits := NatText(AbsInt(n));
    var sign := if n < 0 then "-" else "";
    var room := if width > |sign| + |digits| then width - |sign| - |digits| else 0;
    sign + seq(room, _ => '0') + digits
  }

  function Pow10(k: nat): nat
  {
    if k == 0 then 1 else 10 * Pow10(k - 1)
  }

  /** The decimal text of a natural number is digits only, and has at most `k` of them below 10^k. */
  lemma {:induction false} NatTextDigits(n: nat, k: nat)
    requires 1 <= k && n < Pow10(k)
    ensures AllDigits(NatText(n)) && 1 <= |NatText(n)| <= k
  {
    if n >= 10 {
      NatTextDigits(n / 10, k - 1);
    }
  }

  /** A number between 0 and 10^width - 1 pads to exactly `width` digits. */
  lemma PadIntWidth(n: int, width: nat)
    requires 1 <= width && 0 <= n < Pow10(width)
    ensures |PadInt(n, width)| == width && AllDigits(PadInt(n, width))
  {
    NatTextDigits(n, width);
  }

  /** `sprintf('%04d-%02d-%02d 00:00:00', intval(year), intval(month), intval(day))`. */
  function DateOfParts(year: Value, month: Value, day: Value): string
  {
    PadInt(Types.IntCast(year), 4) + "-" + PadInt(Types.IntCast(month), 2) + "-" + PadInt(Types.IntCast(day), 2) + Midnight
  }

  /** Parts in range give a well-formed `YYYY-MM-DD 00:00:00`. */
  lemma DateOfPartsShape(year: Value, month: Value, day: Value)
    requires 0 <= Types.IntCast(year) < 10000 && 0 <= Types.IntCast(month) < 100 && 0 <= Types.IntCast(day) < 100
    ensures IsoPrefix(DateOfParts(year, month, day)) && |DateOfParts(year, month, day)| == 19
  {
    PadIntWidth(Types.IntCast(year), 4);
    PadIntWidth(Types.IntCast(month), 2);
    PadIntWidth(Types.IntCast(day), 2);
    var y, m, d := PadInt(Types.IntCast(year), 4), PadInt(Types.IntCast(month), 2), PadInt(Types.IntCast(day), 2);
    var r := DateOfParts(year, month, day);
    assert r == y + "-" + m + "-" + d + Midnight;
    assert r[..4] == y && r[5..7] == m && r[8..10] == d;
  }

  /** The date step for a non-empty value of a `datebox` field. */
  function NormalizeDate(env: Env, v: Value): Value
  {
    match v
    case Str(s) =>
      (match env.parseDate(s)
       case Some(d) => Str(d)
       case None => Str(DateFallback(s)))
    case Arr(es) =>
      if Isset(es, "year") && Isset(es, "month") && Isset(es, "day")
      then Str(DateOfParts(Get(es, "year"), Get(es, "month"), Get(es, "day")))
      else v
    case _ => v
  }

  /** The value after the date step: only non-empty values of `datebox` fields change. */
  function Dated(env: Env, fieldType: string, v: Value): Value
  {
    if fieldType == "datebox" && !EmptyValue(v) then NormalizeDate(env, v) else v
  }

  /** The value handed to BuddyBoss: the date step, then booleans as '1' and '0'. */
  function NormalizeValue(env: Env, fieldType: string, v: Value): (r: Value)
    ensures !r.Bool?
  {
    var d := Dated(env, fieldType, v);
    if d.Bool? then Str(if d.b then "1" else "0") else d
  }

  /**
   * Outside `datebox` fields a value is passed on as received, except that
   * a boolean becomes '1' or '0'; a date string that `strtotime` rejects
   * but that starts like a date is still stored in the canonical form.
   */
  lemma NormalizeValueFacts(env: Env, fieldType: string, v: Value)
    ensures fieldType != "datebox" && !v.Bool? ==> NormalizeValue(env, fieldType, v) == v
    ensures fieldType != "datebox" && v.Bool? ==> NormalizeValue(env, fieldType, v) == Str(if v.b then "1" else "0")
    ensures fieldType == "datebox" && v.Str? && !EmptyValue(v) && env.parseDate(v.s).None? && (IsoPrefix(v.s) || SlashPrefix(v.s)) ==>
      (NormalizeValue(env, fieldType, v).Str? && IsoPrefix(NormalizeValue(env, fieldType, v).s)
       && |NormalizeValue(env, fieldType, v).s| == 19)
  {
    if v.Str? {
      DateFallbackShape(v.s);
    }
  }

  // ---------------------------------------------------------------------
  // The loop over the mapping
  // ---------------------------------------------------------------------

  /** What happens to one mapped key. */
  datatype Step =
    | Skip                                            // not set, or ''
    | NoField                                         // no field id, or no top-level row with it
    | Attempt(id: nat, fieldType: string, value: Value) // `xprofile_set_field_data(id, user, value)`

  function StepOf(env: Env, data: Entries, key: string): (s: Step)
    ensures s.Skip? <==> Get(data, key) == Null || Get(data, key) == Str("")
    ensures s.Attempt? ==> (s.id == env.fieldId(key) && s.id != 0 && env.fieldType(s.id) == Some(s.fieldType)
      && s.value == NormalizeValue(env, s.fieldType, Get(data, key)))
  {
    var v := Get(data, key);
    if v == Null || v == Str("") then Skip
    else
      var id := env.fieldId(key);
      if id == 0 then NoField
      else match env.fieldType(id)
        case None => NoField
        case Some(t) => Attempt(id, t, NormalizeValue(env, t, v))
  }

  /** The counters and the calls to `xprofile_set_field_data`, in order. */
  datatype Tally = Tally(saved: nat, skipped: nat, errors: nat, calls: seq<(nat, Value)>)

  const NoTally := Tally(0, 0, 0, [])

  /** One step's effect on the tally. */
  function Count(env: Env, t: Tally, step: Step): Tally
  {
    match step
    case Skip => t.(skipped := t.skipped + 1)
    case NoField => t.(errors := t.errors + 1)
    case Attempt(id, _, v) =>
      if env.saves(id, v) then t.(saved := t.saved + 1, calls := t.calls + [(id, v)])
      else t.(errors := t.errors + 1, calls := t.calls + [(id, v)])
  }

  /** The tally after handling `keys` in order. */
  function Process(env: Env, data: Entries, keys: seq<string>): Tally
  {
    if keys == [] then NoTally
    else Count(env, Process(env, data, keys[..|keys| - 1]), StepOf(env, data, keys[|keys| - 1]))
  }

  /** `storeXProfileFields` as intended: nothing without the xProfile API, else the whole mapping. */
  function Stored(env: Env, data: Entries): Tally
  {
    if !env.xprofileApi then NoTally else Process(env, data, FieldMapping)
  }

  /** Every key is counted exactly once, and one call is made per attempted key. */
  lemma {:induction false} ProcessCounts(env: Env, data: Entries, keys: seq<string>)
    ensures var t := Process(env, data, keys);
      t.saved + t.skipped + t.errors == |keys|
    ensures var t := Process(env, data, keys);
      t.saved <= |t.calls| <= t.saved + t.errors
  {
    if keys != [] {
      ProcessCounts(env, data, keys[..|keys| - 1]);
    }
  }

  /**
   * Every call stores, under a mapped key's field id, that key's normalised
   * value; no call passes a boolean.
   */
  lemma {:induction false} ProcessCalls(env: Env, data: Entries, keys: seq<string>, j: nat)
    requires j < |Process(env, data, keys).calls|
    ensures var (id, v) := Process(env, data, keys).calls[j];
      !v.Bool? && exists k, t :: k in keys && StepOf(env, data, k) == Attempt(id, t, v)
  {
    var prev := keys[..|keys| - 1];
    var k := keys[|keys| - 1];
    if j < |Process(env, data, prev).calls| {
      ProcessCalls(env, data, prev, j);
      var (id, v) := Process(env, data, prev).calls[j];
      var k', t :| k' in prev && StepOf(env, data, k') == Attempt(id, t, v);
      assert k' in keys;
    } else {
      assert k in keys;
    }
  }

  /** With the xProfile API present, the 29 keys split into saved, skipped and failed. */
  lemma StoredCounts(env: Env, data: Entries)
    ensures var t := Stored(env, data);
      t.saved + t.skipped + t.errors == if env.xprofileApi then |FieldMapping| else 0
  {
    ProcessCounts(env, data, FieldMapping);
  }

  /** A mapped key with a set, non-empty value and a known field is written with its normalised value. */
  lemma {:induction false} ProcessWritesKnownField(env: Env, data: Entries, keys: seq<string>, i: nat)
    requires i < |keys|
    requires StepOf(env, data, keys[i]).Attempt?
    ensures var s := StepOf(env, data, keys[i]);
      (s.id, s.value) in Process(env, data, keys).calls
  {
    var prev := keys[..|keys| - 1];
    if i < |keys| - 1 {
      assert prev[i] == keys[i];
      ProcessWritesKnownField(env, data, prev, i);
    }
  }

  /** `storeXProfileFields` with its counters, as intended. */
  method StoreXProfileFields(env: Env, data: Entries) returns (t: Tally)
    ensures t == Stored(env, data)
    ensures t.saved + t.skipped + t.errors == if env.xprofileApi then |FieldMapping| else 0
  {
    if !env.xprofileApi {
      return NoTally;
    }
    t := ProcessKeys(env, data, FieldMapping);
    StoredCounts(env, data);
  }

  /** The loop of `storeXProfileFields` over the mapped keys. */
  method ProcessKeys(env: Env, data: Entries, keys: seq<string>) returns (t: Tally)
    ensures t == Process(env, data, keys)
  {
    t := NoTally;
    var i := 0;
    while i < |keys|
      invariant 0 <= i <= |keys|
      invariant t == Process(env, data, keys[..i])
    {
      var key := keys[i];
      var value := Get(data, key);
      assert keys[..i + 1][..i] == keys[..i];
      if value == Null || value == Str("") {
        t := t.(skipped := t.skipped + 1);
      } else {
        var fieldId := env.fieldId(key);
        if fieldId == 0 {
          t := t.(errors := t.errors + 1);
        } else {
          var row := env.fieldType(fieldId);
          if row.None? {
            t := t.(errors := t.errors + 1);
          } else {
            var v := NormalizeValue(env, row.value, value);
            if env.saves(fieldId, v) {
              t := t.(saved := t.saved + 1, calls := t.calls + [(fieldId, v)]);
            } else {
              t := t.(errors := t.errors + 1, calls := t.calls + [(fieldId, v)]);
            }
          }
        }
      }
      i := i + 1;
    }
    assert keys[..i] == keys;
  }

  // ---------------------------------------------------------------------
  // The code as written: `Logger::warn` does not exist
  // ---------------------------------------------------------------------

  /**
   * A `warn` call before the save of a field: the field is not associated
   * with the member type, there is no member type, a boolean reaches a
   * selectbox or radio field, or the member type reads back differently.
   */
  predicate PreSaveWarn(env: Env, data: Entries, key: string)
  {
    var s := StepOf(env, data, key);
    var mt := MemberType(env);
    s.Attempt? &&
      ((!EmptyValue(mt) && env.unassociated(s.id))
       || EmptyValue(mt)
       || ((s.fieldType == "selectbox" || s.fieldType == "radio") && Dated(env, s.fieldType, Get(data, key)).Bool?)
       || (!EmptyValue(mt) && !env.typeStable))
  }

  /** A `warn` call after a successful save whose value does not read back. */
  predicate PostSaveWarn(env: Env, data: Entries, key: string)
  {
    var s := StepOf(env, data, key);
    s.Attempt? && env.saves(s.id, s.value) && env.readBackEmpty(s.id)
  }

  /** Either an uncaught `Error` after the given calls, or the loop's end with its tally. */
  datatype Run = Thrown(calls: seq<(nat, Value)>) | Done(tally: Tally)

  /** The loop as written: the first `warn` call ends it. */
  function RunAsWritten(env: Env, data: Entries, keys: seq<string>): Run
  {
    if keys == [] then Done(NoTally)
    else match RunAsWritten(env, data, keys[..|keys| - 1])
      case Thrown(c) => Thrown(c)
      case Done(t) =>
        var k := keys[|keys| - 1];
        if PreSaveWarn(env, data, k) then Thrown(t.calls)
        else
          var t' := Count(env, t, StepOf(env, data, k));
          if PostSaveWarn(env, data, k) then Thrown(t'.calls) else Done(t')
  }

  /** `storeXProfileFields` as written, including the `warn` when `bp_get_member_type` is missing. */
  function StoredAsWritten(env: Env, data: Entries): Run
  {
    if !env.xprofileApi then Done(NoTally)
    else if !env.memberTypeApi then Thrown([])
    else RunAsWritten(env, data, FieldMapping)
  }

  predicate Warns(env: Env, data: Entries, key: string)
  {
    PreSaveWarn(env, data, key) || PostSaveWarn(env, data, key)
  }

  /**
   * The code as written finishes exactly when no key reaches a `warn` call,
   * and then agrees with the intended tally; when it throws, the calls made
   * so far are a prefix of the intended ones.
   */
  lemma {:induction false} RunAsWrittenAgrees(env: Env, data: Entries, keys: seq<string>)
    ensures RunAsWritten(env, data, keys).Done? <==> forall k :: k in keys ==> !Warns(env, data, k)
    ensures RunAsWritten(env, data, keys).Done? ==> RunAsWritten(env, data, keys).tally == Process(env, data, keys)
    ensures RunAsWritten(env, data, keys).Thrown? ==> RunAsWritten(env, data, keys).calls <= Process(env, data, keys).calls
  {
    if keys != [] {
      var prev := keys[..|keys| - 1];
      var k := keys[|keys| - 1];
      RunAsWrittenAgrees(env, data, prev);
      assert forall x :: x in keys <==> x in prev || x == k;
      assert (forall x :: x in keys ==> !Warns(env, data, x))
        <==> (forall x :: x in prev ==> !Warns(env, data, x)) && !Warns(env, data, k);
      var t := Process(env, data, prev);
      assert Process(env, data, keys) == Count(env, t, StepOf(env, data, k));
      assert t.calls <= Count(env, t, StepOf(env, data, k)).calls;
    }
  }

  /**
   * With the xProfile API present but no member type, the first mapped key
   * that is set, non-empty and has a known field throws at the
   * 'Nenhum member type ativo' warning: the request never reaches its end.
   */
  lemma NoMemberTypeThrows(env: Env, data: Entries, key: string)
    requires env.xprofileApi && EmptyValue(MemberType(env))
    requires key in FieldMapping && StepOf(env, data, key).Attempt?
    ensures StoredAsWritten(env, data).Thrown?
  {
    RunAsWrittenAgrees(env, data, FieldMapping);
  }

  /** A concrete case: no member type, a CPF and a known field for it. */
  lemma NoMemberTypeExample()
    ensures StoredAsWritten(
      Env(true, true, Str(""), true, _ => 7, _ => Some("textbox"), _ => false, _ => None, (_, _) => true, _ => false),
      [("cpf", Str("12345678901"))]).Thrown?
  {
    var env := Env(true, true, Str(""), true, _ => 7, _ => Some("textbox"), _ => false, _ => None, (_, _) => true, _ => false);
    var data := [("cpf", Str("12345678901"))];
    CpfMapped();
    CpfAttempted(env, data);
    NoMemberTypeThrows(env, data, "cpf");
  }

  lemma CpfMapped()
    ensures "cpf" in FieldMapping
  {
    assert FieldMapping[1] == "cpf";
  }

  lemma CpfAttempted(env: Env, data: Entries)
    requires env == Env(true, true, Str(""), true, _ => 7, _ => Some("textbox"), _ => false, _ => None, (_, _) => true, _ => false)
    requires data == [("cpf", Str("12345678901"))]
    ensures env.xprofileApi && EmptyValue(MemberType(env)) && StepOf(env, data, "cpf").Attempt?
  {
    assert Get(data, "cpf") == Str("12345678901");
  }

  /** When the code as written does finish, it agrees with the intended code. */
  lemma StoredAsWrittenAgrees(env: Env, data: Entries)
    ensures StoredAsWritten(env, data).Done? ==> StoredAsWritten(env, data).tally == Stored(env, data)
    ensures StoredAsWritten(env, data).Done? <==>
      (!env.xprofileApi || (env.memberTypeApi && forall k :: k in FieldMapping ==> !Warns(env, data, k)))
  {
    RunAsWrittenAgrees(env, data, FieldMapping);
  }
}
