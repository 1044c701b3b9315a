/**
 * The CORS origins setting: turning the submitted textarea or array into
 * a clean list of origins, the defaults used when nothing is stored, and
 * the pre-update filter that chooses what to sanitise. `esc_url_raw` and
 * the URL validity test of `filter_var` are parameters.
 */
module SettingsPage {
  import opened Php

  /** The four development origins used when no list is stored. */
  const DefaultOrigins: seq<string> := ["http://localhost:5173", "http://localhost:3000", "http://127.0.0.1:5173", "http://127.0.0.1:3000"]

  /**
   * The text `trim` sees for one element: integers in decimal, true as
   * '1', false and null as ''; a nested array has no text.
   */
  function TextOf(v: Value): Option<string>
  {
    match v
    case Str(s) => Some(s)
    case Int(i) => Some(IntText(i))
    case Bool(b) => Some(if b then "1" else "")
    case Null => Some("")
    case Arr(_) => None
  }

  /**
   * The lines the sanitiser visits: a string is split on newlines, so is
   * an array whose only entry is a string under key 0, any other array is
   * taken element by element, and anything else gives no lines.
   */
  function InputLines(input: Value): (lines: seq<Option<string>>)
    ensures input.Str? ==> lines == SomeAll(Explode(input.s, '\n'))
    ensures input.Arr? && |input.entries| == 1 && Get(input.entries, "0").Str? ==>
      lines == SomeAll(Explode(Get(input.entries, "0").s, '\n'))
    ensures input.Arr? && !(|input.entries| == 1 && Get(input.entries, "0").Str?) ==>
      |lines| == |input.entries| && forall i :: 0 <= i < |lines| ==> lines[i] == TextOf(input.entries[i].1)
    ensures !input.Str? && !input.Arr? ==> lines == []
  {
    if input.Str? then SomeAll(Explode(input.s, '\n'))
    else if input.Arr? then
      if |input.entries| == 1 && Get(input.entries, "0").Str? then SomeAll(Explode(Get(input.entries, "0").s, '\n'))
      else seq(|input.entries|, i requires 0 <= i < |input.entries| => TextOf(input.entries[i].1))
    else []
  }

  function SomeAll(xs: seq<string>): (r: seq<Option<string>>)
    ensures |r| == |xs| && forall i :: 0 <= i < |xs| ==> r[i] == Some(xs[i])
  {
    seq(|xs|, i requires 0 <= i < |xs| => Some(xs[i]))
  }

  predicate HasScheme(s: string)
  {
    StartsWith(s, "http://") || StartsWith(s, "https://")
  }

  /** `[a-zA-Z0-9.-]`: a character a bare host name may start with. */
  predicate HostChar(c: char)
  {
    'a' <= c <= 'z' || 'A' <= c <= 'Z' || '0' <= c <= '9' || c == '.' || c == '-'
  }

  /**
   * One line before escaping: trimmed; skipped when empty; given
   * 'https://' when it has no scheme but starts like a host name, and
   * skipped when it does not; then stripped of trailing slashes.
   */
  function NormalizeOrigin(line: string): (r: Option<string>)
    ensures IsBlankString(line) || EmptyString(Trim(line)) ==> r.None?
    ensures r.Some? ==> r.value != [] && r.value[|r.value| - 1] != '/'
    ensures r.Some? && !HasScheme(Trim(line)) ==> StartsWith(r.value, "https://")
    ensures r.None? && !EmptyString(Trim(line)) ==> !HasScheme(Trim(line)) && !HostChar(Trim(line)[0])
  {
    var origin := Trim(line);
    if EmptyString(origin) then None
    else if HasScheme(origin) then
      SchemeOriginKept(origin);
      Some(TrimRight(origin, {'/'}))
    else if HostChar(origin[0]) then
      HostOriginPrefixed(origin);
      Some(TrimRight("https://" + origin, {'/'}))
    else None
  }

  /** An origin with a scheme keeps at least its first letter. */
  lemma SchemeOriginKept(origin: string)
    requires HasScheme(origin)
    ensures TrimRight(origin, {'/'}) != []
  {
    assert origin[0] == 'h';
  }

  /** A bare host name keeps the scheme put in front of it. */
  lemma HostOriginPrefixed(origin: string)
    requires origin != [] && HostChar(origin[0])
    ensures StartsWith(TrimRight("https://" + origin, {'/'}), "https://")
  {
    TrimRightKeepsNonSlashPrefix("https://", origin);
  }

  /** Stripping trailing slashes never reaches into a prefix followed by a non-slash character. */
  lemma TrimRightKeepsNonSlashPrefix(prefix: string, rest: string)
    requires rest != [] && rest[0] != '/'
    ensures StartsWith(TrimRight(prefix + rest, {'/'}), prefix)
    decreases |rest|
  {
    var s := prefix + rest;
    if s[|s| - 1] == '/' {
      assert |rest| > 1;
      assert s[..|s| - 1] == prefix + rest[..|rest| - 1];
      TrimRightKeepsNonSlashPrefix(prefix, rest[..|rest| - 1]);
    }
  }

  /** The origin one line contributes, after escaping and validation, if any. */
  function CleanOrigin(line: Option<string>, escUrl: string -> string, validUrl: string -> bool): (r: Option<string>)
    ensures r.Some? ==> !EmptyString(r.value) && validUrl(r.value)
    ensures r.Some? ==> line.Some? && NormalizeOrigin(line.value).Some? && r.value == escUrl(NormalizeOrigin(line.value).value)
  {
    match line
    case None => None
    case Some(text) =>
      match NormalizeOrigin(text)
      case None => None
      case Some(origin) =>
        var escaped := escUrl(origin);
        if !EmptyString(escaped) && validUrl(escaped) then Some(escaped) else None
  }

  /** The origins kept from `lines`, in order, duplicates included. */
  function CleanOrigins(lines: seq<Option<string>>, escUrl: string -> string, validUrl: string -> bool): (r: seq<string>)
    ensures forall x :: x in r <==> exists i :: 0 <= i < |lines| && CleanOrigin(lines[i], escUrl, validUrl) == Some(x)
  {
    if lines == [] then []
    else
      var init := CleanOrigins(lines[..|lines| - 1], escUrl, validUrl);
      var last := lines[|lines| - 1];
      assert forall i :: 0 <= i < |lines| - 1 ==> lines[..|lines| - 1][i] == lines[i];
      match CleanOrigin(last, escUrl, validUrl)
      case Some(o) => init + [o]
      case None => init
  }

  /** What `sanitizeCorsOrigins` returns. */
  function SanitizedOrigins(input: Value, escUrl: string -> string, validUrl: string -> bool): seq<string>
  {
    Unique(CleanOrigins(InputLines(input), escUrl, validUrl))
  }

  /** `sanitizeCorsOrigins`. */
  method SanitizeCorsOrigins(input: Value, escUrl: string -> string, validUrl: string -> bool) returns (origins: seq<string>)
    ensures origins == SanitizedOrigins(input, escUrl, validUrl)
  {
    var lines := InputLines(input);
    var sanitized := CleanLines(lines, escUrl, validUrl);
    origins := Unique(sanitized);
  }

  /** The loop of `sanitizeCorsOrigins` over the lines. */
  method CleanLines(lines: seq<Option<string>>, escUrl: string -> string, validUrl: string -> bool) returns (sanitized: seq<string>)
    ensures sanitized == CleanOrigins(lines, escUrl, validUrl)
  {
    sanitized := [];
    var i := 0;
    while i < |lines|
      invariant 0 <= i <= |lines|
      invariant sanitized == CleanOrigins(lines[..i], escUrl, validUrl)
    {
      CleanOriginsSnoc(lines, i, escUrl, validUrl);
      var cleaned := CleanOrigin(lines[i], escUrl, validUrl);
      if cleaned.Some? {
        sanitized := sanitized + [cleaned.value];
      }
      i := i + 1;
    }
    assert lines[..i] == lines;
  }

  lemma CleanOriginsSnoc(lines: seq<Option<string>>, i: nat, escUrl: string -> string, validUrl: string -> bool)
    requires i < |lines|
    ensures CleanOrigins(lines[..i + 1], escUrl, validUrl)
      == CleanOrigins(lines[..i], escUrl, validUrl)
         + match CleanOrigin(lines[i], escUrl, validUrl) case Some(o) => [o] case None => []
  {
    assert lines[..i + 1][..i] == lines[..i];
  }

  /**
   * The sanitised list has no duplicates and keeps first-occurrence
   * order; every origin in it is a valid, non-empty escaped origin of a
   * line of the input, and every line that yields one is represented.
   */
  lemma SanitizedOriginsFacts(input: Value, escUrl: string -> string, validUrl: string -> bool)
    ensures var r := SanitizedOrigins(input, escUrl, validUrl);
      forall i, j :: 0 <= i < j < |r| ==> r[i] != r[j]
    ensures var r := SanitizedOrigins(input, escUrl, validUrl);
      var all := CleanOrigins(InputLines(input), escUrl, validUrl);
      forall i, j :: 0 <= i < j < |r| ==> FirstIndex(all, r[i]) < FirstIndex(all, r[j])
    ensures var r := SanitizedOrigins(input, escUrl, validUrl);
      forall x :: x in r <==> exists i :: 0 <= i < |InputLines(input)| && CleanOrigin(InputLines(input)[i], escUrl, validUrl) == Some(x)
    ensures var r := SanitizedOrigins(input, escUrl, validUrl);
      forall x :: x in r ==> !EmptyString(x) && validUrl(x)
  {
    var all := CleanOrigins(InputLines(input), escUrl, validUrl);
    UniqueKeepsFirstOccurrenceOrder(all);
    forall x | x in Unique(all)
      ensures !EmptyString(x) && validUrl(x)
    {
      var i :| 0 <= i < |InputLines(input)| && CleanOrigin(InputLines(input)[i], escUrl, validUrl) == Some(x);
    }
  }

  /** A blank or whitespace-only line contributes nothing. */
  lemma BlankLinesDropped(line: string, escUrl: string -> string, validUrl: string -> bool)
    requires IsBlankString(line)
    ensures CleanOrigin(Some(line), escUrl, validUrl).None?
  {
  }

  /** `getCorsOrigins`: the stored list, or the defaults when it is empty or not an array. */
  function GetCorsOrigins(stored: Value): (origins: Value)
    ensures EmptyValue(stored) || !stored.Arr? ==> origins == ListValue(DefaultOrigins)
    ensures !EmptyValue(stored) && stored.Arr? ==> origins == stored
    ensures origins.Arr? && origins.entries != []
  {
    if EmptyValue(stored) || !stored.Arr? then ListValue(DefaultOrigins) else stored
  }

  /**
   * `processTextareaInput`: a string posted under the option name is
   * sanitised first, else an array value, and otherwise the old value is
   * kept.
   */
  function ProcessTextareaInput(posted: Option<Value>, value: Value, oldValue: Value,
                                escUrl: string -> string, validUrl: string -> bool): (r: Value)
    ensures posted.Some? && posted.value.Str? ==> r == ListValue(SanitizedOrigins(posted.value, escUrl, validUrl))
    ensures !(posted.Some? && posted.value.Str?) && value.Arr? ==> r == ListValue(SanitizedOrigins(value, escUrl, validUrl))
    ensures !(posted.Some? && posted.value.Str?) && !value.Arr? ==> r == oldValue
  {
    if posted.Some? && posted.value.Str? then ListValue(SanitizedOrigins(posted.value, escUrl, validUrl))
    else if value.Arr? then ListValue(SanitizedOrigins(value, escUrl, validUrl))
    else oldValue
  }

  /**
   * Whatever the filter stores is either the old value, untouched, or a
   * list of distinct, non-empty, valid origins.
   */
  lemma ProcessTextareaStoresCleanList(posted: Option<Value>, value: Value, oldValue: Value,
                                       escUrl: string -> string, validUrl: string -> bool)
    ensures var r := ProcessTextareaInput(posted, value, oldValue, escUrl, validUrl);
      !(posted.Some? && posted.value.Str?) && !value.Arr? ==> r == oldValue
    ensures var r := ProcessTextareaInput(posted, value, oldValue, escUrl, validUrl);
      (posted.Some? && posted.value.Str?) || value.Arr? ==>
        r.Arr?
        && (forall i :: 0 <= i < |r.entries| ==> r.entries[i].1.Str? && validUrl(r.entries[i].1.s) && !EmptyString(r.entries[i].1.s))
        && (forall i, j :: 0 <= i < j < |r.entries| ==> r.entries[i].1 != r.entries[j].1)
  {
    if (posted.Some? && posted.value.Str?) || value.Arr? {
      var input := if posted.Some? && posted.value.Str? then posted.value else value;
      SanitizedOriginsFacts(input, escUrl, validUrl);
      var xs := SanitizedOrigins(input, escUrl, validUrl);
      var r := ListValue(xs);
      assert ProcessTextareaInput(posted, value, oldValue, escUrl, validUrl) == r;
      forall i | 0 <= i < |r.entries|
        ensures r.entries[i].1 == Str(xs[i])
      {
      }
      assert forall i :: 0 <= i < |xs| ==> xs[i] in xs;
    }
  }
}
