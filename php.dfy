/**
 * The slice of PHP semantics the plugin relies on: ordered arrays with
 * string keys, `isset`, `empty()`, `??`, `trim`, ASCII `strtolower` and
 * `strtoupper`, `explode`, `implode` and `absint`.  Every other module of
 * the model is written on top of these definitions.
 */
module Php {

  datatype Option<T> = None | Some(value: T)

  /**
   * A PHP value as it reaches the plugin: decoded JSON, user meta, config
   * arrays.  Arrays are ordered; an integer key is written as its decimal
   * string.  Floating-point values are not modelled.
   */
  datatype Value = Null | Bool(b: bool) | Int(i: int) | Str(s: string) | Arr(entries: seq<(string, Value)>)

  /** The entries of a PHP array, in insertion order. */
  type Entries = seq<(string, Value)>

  // ---------------------------------------------------------------------
  // Ordered tables (PHP arrays with string keys)
  // ---------------------------------------------------------------------

  function Keys<V>(t: seq<(string, V)>): seq<string>
  {
    seq(|t|, i requires 0 <= i < |t| => t[i].0)
  }

  /** A PHP array never holds the same key twice. */
  predicate DistinctKeys<V>(t: seq<(string, V)>)
  {
    forall i, j :: 0 <= i < j < |t| ==> t[i].0 != t[j].0
  }

  /** `$t[$k]` when the key exists. */
  function Lookup<V>(t: seq<(string, V)>, k: string): (r: Option<V>)
    ensures r.None? <==> k !in Keys(t)
    ensures r.Some? ==> (k, r.value) in t
  {
    assert t != [] ==> Keys(t) == [t[0].0] + Keys(t[1..]);
    if t == [] then None
    else if t[0].0 == k then Some(t[0].1)
    else Lookup(t[1..], k)
  }

  /** `$t[$k] = $v`: overwrite in place when the key exists, append otherwise. */
  function Put<V>(t: seq<(string, V)>, k: string, v: V): (r: seq<(string, V)>)
    ensures Lookup(r, k) == Some(v)
    ensures forall k' :: k' != k ==> Lookup(r, k') == Lookup(t, k')
    ensures k in Keys(t) ==> Keys(r) == Keys(t)
    ensures k !in Keys(t) ==> Keys(r) == Keys(t) + [k]
  {
    assert t != [] ==> Keys(t) == [t[0].0] + Keys(t[1..]);
    if t == [] then [(k, v)]
    else if t[0].0 == k then
      assert Keys([(k, v)] + t[1..]) == [k] + Keys(t[1..]);
      [(k, v)] + t[1..]
    else
      var rest := Put(t[1..], k, v);
      assert Keys([t[0]] + rest) == [t[0].0] + Keys(rest);
      [t[0]] + rest
  }

  /** In an array with distinct keys, an entry is present exactly when its key looks it up. */
  lemma {:induction false} LookupDistinct<V>(t: seq<(string, V)>, k: string, v: V)
    requires DistinctKeys(t)
    ensures (k, v) in t <==> Lookup(t, k) == Some(v)
  {
    if t != [] {
      LookupDistinct(t[1..], k, v);
      assert forall j :: 0 <= j < |t[1..]| ==> t[1..][j].0 != t[0].0;
    }
  }

  /** `$t[$k] = $v` with a fresh key appends. */
  lemma {:induction false} PutFresh<V>(t: seq<(string, V)>, k: string, v: V)
    requires k !in Keys(t)
    ensures Put(t, k, v) == t + [(k, v)]
  {
    if t != [] {
      KeysCons(t);
      PutFresh(t[1..], k, v);
      assert Put(t, k, v) == [t[0]] + Put(t[1..], k, v);
      ConsSnoc(t, (k, v));
    }
  }

  /** The keys of a non-empty array are its first key, then those of the rest. */
  lemma KeysCons<V>(t: seq<(string, V)>)
    requires t != []
    ensures Keys(t) == [t[0].0] + Keys(t[1..])
  {
  }

  lemma AppendSnoc<T>(a: seq<T>, s: seq<T>)
    requires s != []
    ensures (a + s[..|s| - 1]) + [s[|s| - 1]] == a + s
  {
  }

  lemma ConsSnoc<T>(s: seq<T>, x: T)
    requires s != []
    ensures [s[0]] + (s[1..] + [x]) == s + [x]
  {
  }

  lemma KeysAppend<V>(a: seq<(string, V)>, b: seq<(string, V)>)
    ensures Keys(a + b) == Keys(a) + Keys(b)
  {
  }

  /** The keys of a non-empty array are those of all but its last entry, then the last key. */
  lemma KeysSnoc<V>(t: seq<(string, V)>)
    requires t != []
    ensures Keys(t) == Keys(t[..|t| - 1]) + [t[|t| - 1].0]
  {
  }

  lemma KeyAbsent<V>(t: seq<(string, V)>, k: string)
    requires forall j :: 0 <= j < |t| ==> t[j].0 != k
    ensures k !in Keys(t)
  {
  }

  /** Successive `$t[$k] = $v` for every entry of `es`, in order. */
  function PutAll<V>(t: seq<(string, V)>, es: seq<(string, V)>): seq<(string, V)>
  {
    if es == [] then t else Put(PutAll(t, es[..|es| - 1]), es[|es| - 1].0, es[|es| - 1].1)
  }

  lemma PutAllSnoc<V>(t: seq<(string, V)>, es: seq<(string, V)>, k: string, v: V)
    ensures PutAll(t, es + [(k, v)]) == Put(PutAll(t, es), k, v)
  {
    assert (es + [(k, v)])[..|es|] == es;
  }

  /** After successive assignments a key is present iff it was present or assigned; its value comes from one of them. */
  lemma {:induction false} PutAllLookup<V>(t: seq<(string, V)>, es: seq<(string, V)>, k: string)
    ensures Lookup(PutAll(t, es), k).Some? <==> Lookup(t, k).Some? || k in Keys(es)
    ensures Lookup(PutAll(t, es), k).Some? ==> (k, Lookup(PutAll(t, es), k).value) in t + es
  {
    if es != [] {
      var init := es[..|es| - 1];
      PutAllLookup(t, init, k);
      KeysAppend(init, [es[|es| - 1]]);
      assert Keys([es[|es| - 1]]) == [es[|es| - 1].0];
      SplitLast(es);
    }
  }

  /** With distinct assigned keys, an assigned key reads its one assigned value; any other key reads as before. */
  lemma {:induction false} PutAllDistinctLookup<V>(t: seq<(string, V)>, es: seq<(string, V)>, k: string)
    requires DistinctKeys(es)
    ensures Lookup(PutAll(t, es), k) == if k in Keys(es) then Lookup(es, k) else Lookup(t, k)
  {
    if es != [] {
      var init := es[..|es| - 1];
      var last := es[|es| - 1];
      assert DistinctKeys(init) by {
        assert forall j :: 0 <= j < |init| ==> init[j] == es[j];
      }
      PutAllDistinctLookup(t, init, k);
      SplitLast(es);
      LookupSnoc(init, last, k);
      var before := PutAll(t, init);
      assert PutAll(t, es) == Put(before, last.0, last.1);
      if k == last.0 {
        LastKeyFresh(es);
        assert Lookup(PutAll(t, es), k) == Some(last.1);
      } else {
        assert Lookup(PutAll(t, es), k) == Lookup(before, k);
      }
    }
  }

  /** A non-empty sequence is its front followed by its last element. */
  lemma SplitLast<T>(s: seq<T>)
    requires s != []
    ensures s == s[..|s| - 1] + [s[|s| - 1]]
  {
  }

  /** Looking up in an array with one more entry at the end. */
  lemma LookupSnoc<V>(init: seq<(string, V)>, last: (string, V), k: string)
    ensures Keys(init + [last]) == Keys(init) + [last.0]
    ensures Lookup(init + [last], k) == if k in Keys(init) then Lookup(init, k) else if k == last.0 then Some(last.1) else None
  {
    KeysAppend(init, [last]);
    LookupAppend(init, [last], k);
    assert Keys([last]) == [last.0];
  }

  /** In an array with distinct keys the last key does not occur before it. */
  lemma LastKeyFresh<V>(es: seq<(string, V)>)
    requires es != [] && DistinctKeys(es)
    ensures es[|es| - 1].0 !in Keys(es[..|es| - 1])
  {
    var init := es[..|es| - 1];
    forall j | 0 <= j < |init|
      ensures Keys(init)[j] != es[|es| - 1].0
    {
      assert init[j] == es[j];
    }
  }

  lemma {:induction false} PutAllFresh<V>(t: seq<(string, V)>, es: seq<(string, V)>)
    requires DistinctKeys(es)
    requires forall i :: 0 <= i < |es| ==> es[i].0 !in Keys(t)
    ensures PutAll(t, es) == t + es
  {
    if es != [] {
      var init := es[..|es| - 1];
      var last := es[|es| - 1];
      assert DistinctKeys(init) && forall i :: 0 <= i < |init| ==> init[i].0 !in Keys(t) by {
        assert forall i :: 0 <= i < |init| ==> init[i] == es[i];
      }
      PutAllFresh(t, init);
      LastFresh(t, es);
      PutFresh(t + init, last.0, last.1);
      AppendSnoc(t, es);
    }
  }

  /** The last key of an array with distinct keys, none of them in `t`, is not among the keys before it. */
  lemma LastFresh<V>(t: seq<(string, V)>, es: seq<(string, V)>)
    requires es != [] && DistinctKeys(es)
    requires forall i :: 0 <= i < |es| ==> es[i].0 !in Keys(t)
    ensures es[|es| - 1].0 !in Keys(t + es[..|es| - 1])
  {
    var init := es[..|es| - 1];
    var k := es[|es| - 1].0;
    KeysAppend(t, init);
    KeyAbsent(init, k);
  }

  /** The entries of `es` that satisfy `p`, in order. */
  function KeepIf<V(!new)>(es: seq<(string, V)>, p: (string, V) -> bool): (r: seq<(string, V)>)
    ensures forall x :: x in r <==> x in es && p(x.0, x.1)
    ensures |r| <= |es|
  {
    if es == [] then []
    else
      var init := KeepIf(es[..|es| - 1], p);
      var last := es[|es| - 1];
      assert es == es[..|es| - 1] + [last];
      if p(last.0, last.1) then init + [last] else init
  }

  /** One more entry of a keyed array with distinct keys: kept or not, and its key is not among those kept before. */
  lemma KeepIfStep<V(!new)>(es: seq<(string, V)>, i: nat, p: (string, V) -> bool)
    requires DistinctKeys(es) && i < |es|
    ensures KeepIf(es[..i + 1], p) == if p(es[i].0, es[i].1) then KeepIf(es[..i], p) + [es[i]] else KeepIf(es[..i], p)
    ensures es[i].0 !in Keys(KeepIf(es[..i], p))
  {
    assert es[..i + 1][..i] == es[..i];
    var r := KeepIf(es[..i], p);
    forall j | 0 <= j < |r|
      ensures r[j].0 != es[i].0
    {
      assert r[j] in es[..i];
      var m :| 0 <= m < i && es[m] == r[j];
    }
    KeyAbsent(r, es[i].0);
  }

  lemma {:induction false} KeepIfDistinct<V(!new)>(es: seq<(string, V)>, p: (string, V) -> bool)
    requires DistinctKeys(es)
    ensures DistinctKeys(KeepIf(es, p))
  {
    if es != [] {
      var init := es[..|es| - 1];
      var last := es[|es| - 1];
      KeepIfDistinct(init, p);
      var r := KeepIf(init, p);
      forall x | x in r
        ensures x.0 != last.0
      {
        var j :| 0 <= j < |init| && init[j] == x;
        assert es[j] == x;
      }
    }
  }

  /** Looking a key up in a filtered array with distinct keys. */
  lemma LookupKeepIf<V(!new)>(es: seq<(string, V)>, p: (string, V) -> bool, k: string)
    requires DistinctKeys(es)
    ensures Lookup(KeepIf(es, p), k) == match Lookup(es, k) case Some(v) => (if p(k, v) then Some(v) else None) case None => None
  {
    KeepIfDistinct(es, p);
    var r := KeepIf(es, p);
    match Lookup(es, k)
    case Some(v) =>
      LookupDistinct(es, k, v);
      LookupDistinct(r, k, v);
    case None =>
      match Lookup(r, k)
      case Some(w) =>
        LookupDistinct(r, k, w);
        LookupDistinct(es, k, w);
      case None =>
  }

  /** Looking a key up in a concatenation: the left part wins. */
  lemma {:induction false} LookupAppend<V>(a: seq<(string, V)>, b: seq<(string, V)>, k: string)
    ensures Lookup(a + b, k) == if Lookup(a, k).Some? then Lookup(a, k) else Lookup(b, k)
  {
    if a != [] {
      LookupAppend(a[1..], b, k);
      assert (a + b)[0] == a[0];
      assert (a + b)[1..] == a[1..] + b;
      if a[0].0 != k {
        assert Lookup(a + b, k) == Lookup(a[1..] + b, k);
        assert Lookup(a, k) == Lookup(a[1..], k);
      }
    } else {
      assert a + b == b;
    }
  }

  /** `$t[$k] ?? null`. */
  function Get(t: Entries, k: string): Value
  {
    match Lookup(t, k)
    case Some(v) => v
    case None => Null
  }

  /** `isset($t[$k])`: the key exists and its value is not null. */
  predicate Isset(t: Entries, k: string)
  {
    Get(t, k) != Null
  }

  /** PHP `empty()`: null, false, 0, '', '0' and the empty array. */
  predicate EmptyValue(v: Value)
  {
    match v
    case Null => true
    case Bool(b) => !b
    case Int(i) => i == 0
    case Str(s) => s == "" || s == "0"
    case Arr(es) => es == []
  }

  /** `empty()` of a string. */
  predicate EmptyString(s: string)
  {
    s == "" || s == "0"
  }

  // ---------------------------------------------------------------------
  // Strings
  // ---------------------------------------------------------------------

  /** The characters PHP's `trim` strips by default. */
  const Whitespace: set<char> := {' ', '\t', '\n', '\r', '\0', '\U{B}'}

  function TrimLeft(s: string, cs: set<char>): (r: string)
    ensures |r| <= |s|
    ensures r == [] || r[0] !in cs
    ensures forall i :: 0 <= i < |s| - |r| ==> s[i] in cs
  {
    if s != [] && s[0] in cs then TrimLeft(s[1..], cs) else s
  }

  /** What `TrimLeft` keeps is a suffix of its input. */
  lemma {:induction false} TrimLeftSuffix(s: string, cs: set<char>)
    ensures TrimLeft(s, cs) == s[|s| - |TrimLeft(s, cs)|..]
  {
    if s != [] && s[0] in cs {
      TrimLeftSuffix(s[1..], cs);
    }
  }

  function TrimRight(s: string, cs: set<char>): (r: string)
    ensures |r| <= |s| && r == s[..|r|]
    ensures r == [] || r[|r| - 1] !in cs
    ensures forall i :: |r| <= i < |s| ==> s[i] in cs
  {
    if s != [] && s[|s| - 1] in cs then TrimRight(s[..|s| - 1], cs) else s
  }

  /** `trim($s, $cs)`. */
  function TrimBy(s: string, cs: set<char>): string
  {
    TrimRight(TrimLeft(s, cs), cs)
  }

  /** `trim($s)` with PHP's default character list. */
  function Trim(s: string): string
  {
    TrimBy(s, Whitespace)
  }

  /** A string that `trim` reduces to ''. */
  predicate IsBlankString(s: string)
  {
    Trim(s) == ""
  }

  lemma BlankIffAllWhitespace(s: string)
    ensures IsBlankString(s) <==> forall i :: 0 <= i < |s| ==> s[i] in Whitespace
  {
    var l := TrimLeft(s, Whitespace);
    TrimLeftSuffix(s, Whitespace);
    assert l != [] ==> l[0] !in Whitespace;
  }

  lemma TrimmedHasNoOuterWhitespace(s: string)
    ensures Trim(s) == [] || (Trim(s)[0] !in Whitespace && Trim(s)[|Trim(s)| - 1] !in Whitespace)
  {
  }

  predicate IsUpperChar(c: char) { 'A' <= c <= 'Z' }

  predicate IsLowerChar(c: char) { 'a' <= c <= 'z' }

  function LowerChar(c: char): char
  {
    if IsUpperChar(c) then (c as int + 32) as char else c
  }

  function UpperChar(c: char): char
  {
    if IsLowerChar(c) then (c as int - 32) as char else c
  }

  /** `strtolower`, which only maps ASCII letters. */
  function ToLower(s: string): (r: string)
    ensures |r| == |s|
    ensures forall i :: 0 <= i < |s| ==> r[i] == LowerChar(s[i])
  {
    seq(|s|, i requires 0 <= i < |s| => LowerChar(s[i]))
  }

  /** `strtoupper`, which only maps ASCII letters. */
  function ToUpper(s: string): (r: string)
    ensures |r| == |s|
    ensures forall i :: 0 <= i < |s| ==> r[i] == UpperChar(s[i])
  {
    seq(|s|, i requires 0 <= i < |s| => UpperChar(s[i]))
  }

  lemma LowerOfUpper(s: string)
    ensures ToLower(ToUpper(s)) == ToLower(s)
  {
  }

  lemma LowerIdempotent(s: string)
    ensures ToLower(ToLower(s)) == ToLower(s)
  {
  }

  /** `strcasecmp($a, $b) === 0`. */
  predicate CaseInsensitiveEqual(a: string, b: string)
  {
    ToLower(a) == ToLower(b)
  }

  predicate StartsWith(s: string, prefix: string)
  {
    |prefix| <= |s| && s[..|prefix|] == prefix
  }

  /** `str_replace($from, $to, $s)` for single characters. */
  function ReplaceChar(s: string, from: char, to: char): (r: string)
    ensures |r| == |s|
    ensures forall i :: 0 <= i < |s| ==> r[i] == if s[i] == from then to else s[i]
  {
    seq(|s|, i requires 0 <= i < |s| => if s[i] == from then to else s[i])
  }

  /** `explode($sep, $s)` for a one-character separator. */
  function Explode(s: string, sep: char): (r: seq<string>)
    ensures |r| >= 1
    ensures forall i :: 0 <= i < |r| ==> sep !in r[i]
  {
    if s == [] then [""]
    else
      var rest := Explode(s[1..], sep);
      if s[0] == sep then [""] + rest
      else [[s[0]] + rest[0]] + rest[1..]
  }

  /** `implode($sep, $parts)`. */
  function Join(parts: seq<string>, sep: string): string
  {
    if parts == [] then ""
    else if |parts| == 1 then parts[0]
    else parts[0] + sep + Join(parts[1..], sep)
  }

  lemma {:induction false} JoinExplode(s: string, sep: char)
    ensures Join(Explode(s, sep), [sep]) == s
  {
    if s != [] {
      JoinExplode(s[1..], sep);
      var rest := Explode(s[1..], sep);
      if s[0] != sep {
        if |rest| > 1 {
          assert Join(rest, [sep]) == rest[0] + [sep] + Join(rest[1..], [sep]);
        }
      }
    }
  }

  /** The decimal text of an integer, as PHP interpolates it. */
  function IntText(i: int): string
  {
    if i < 0 then "-" + NatText(-i) else NatText(i)
  }

  function NatText(n: nat): string
  {
    var d := ["0", "1", "2", "3", "4", "5", "6", "7", "8", "9"][n % 10];
    if n < 10 then d else NatText(n / 10) + d
  }

  /** A PHP list: the values under the keys "0", "1", ... in order. */
  function ListValue(xs: seq<string>): (v: Value)
    ensures v.Arr? && |v.entries| == |xs|
    ensures forall i :: 0 <= i < |xs| ==> v.entries[i] == (NatText(i), Str(xs[i]))
  {
    Arr(seq(|xs|, i requires 0 <= i < |xs| => (NatText(i), Str(xs[i]))))
  }

  /** The values of an array, in order (what `foreach` visits). */
  function Values(t: Entries): (vs: seq<Value>)
    ensures |vs| == |t|
    ensures forall i :: 0 <= i < |t| ==> vs[i] == t[i].1
  {
    seq(|t|, i requires 0 <= i < |t| => t[i].1)
  }

  /** `absint`: the absolute value of the integer. */
  function AbsInt(i: int): (r: nat)
    ensures r == i || r == -i
  {
    if i < 0 then -i else i
  }

  /** `a` is `b` with some elements left out, order kept. */
  predicate IsSubsequence(a: seq<string>, b: seq<string>)
  {
    if a == [] then true
    else if b == [] then false
    else if a[0] == b[0] then IsSubsequence(a[1..], b[1..])
    else IsSubsequence(a, b[1..])
  }

  lemma {:induction false} SubsequenceSkip(a: seq<string>, b: seq<string>, x: string)
    requires IsSubsequence(a, b)
    ensures IsSubsequence(a, [x] + b)
    decreases |a| + |b|, 1
  {
    assert ([x] + b)[1..] == b;
    if a != [] && a[0] == x {
      SubsequenceTail(a, b);
    }
  }

  lemma {:induction false} SubsequenceTail(a: seq<string>, b: seq<string>)
    requires a != [] && IsSubsequence(a, b)
    ensures IsSubsequence(a[1..], b)
    decreases |a| + |b|, 0
  {
    if a[0] == b[0] {
      SubsequenceSkip(a[1..], b[1..], b[0]);
      assert [b[0]] + b[1..] == b;
    } else {
      SubsequenceTail(a, b[1..]);
      SubsequenceSkip(a[1..], b[1..], b[0]);
      assert [b[0]] + b[1..] == b;
    }
  }

  /** Extending the longer sequence keeps a subsequence, extended or not. */
  lemma {:induction false} SubsequenceSnoc(a: seq<string>, b: seq<string>, x: string)
    requires IsSubsequence(a, b)
    ensures IsSubsequence(a, b + [x])
    ensures IsSubsequence(a + [x], b + [x])
    decreases |a| + |b|
  {
    if a == [] {
      SubsequenceEmpty(b + [x]);
      assert [x] == [] + [x];
      SubsequenceEmpty(b);
      SubsequenceLast(b, x);
    } else if b == [] {
    } else if a[0] == b[0] {
      SubsequenceSnoc(a[1..], b[1..], x);
      assert (b + [x])[1..] == b[1..] + [x];
      assert (a + [x])[1..] == a[1..] + [x];
    } else {
      SubsequenceSnoc(a, b[1..], x);
      assert (b + [x])[1..] == b[1..] + [x];
    }
  }

  lemma {:induction false} SubsequenceEmpty(b: seq<string>)
    ensures IsSubsequence([], b)
  {
  }

  lemma {:induction false} SubsequenceLast(b: seq<string>, x: string)
    ensures IsSubsequence([x], b + [x])
  {
    if b != [] {
      SubsequenceLast(b[1..], x);
      assert (b + [x])[1..] == b[1..] + [x];
    }
  }

  /**
   * Removes later duplicates, keeping each value at its first occurrence
   * (`array_unique` followed by `array_values`, or an `in_array` guard
   * before each append).
   */
  function Unique(s: seq<string>): (r: seq<string>)
    ensures forall x :: x in r <==> x in s
    ensures forall i, j :: 0 <= i < j < |r| ==> r[i] != r[j]
    ensures |r| <= |s|
  {
    if s == [] then []
    else
      var u := Unique(s[..|s| - 1]);
      var last := s[|s| - 1];
      assert s == s[..|s| - 1] + [last];
      if last in u then u else u + [last]
  }

  /** The position of the first occurrence of `x` in `s`. */
  function FirstIndex(s: seq<string>, x: string): (i: nat)
    requires x in s
    ensures i < |s| && s[i] == x && forall j :: 0 <= j < i ==> s[j] != x
  {
    if s[0] == x then 0 else 1 + FirstIndex(s[1..], x)
  }

  lemma FirstIndexPrefix(s: seq<string>, t: seq<string>, x: string)
    requires x in s
    ensures FirstIndex(s + t, x) == FirstIndex(s, x)
  {
    var i := FirstIndex(s, x);
    var k := FirstIndex(s + t, x);
    assert (s + t)[i] == x;
  }

  /** `Unique` lists the values in the order of their first occurrences. */
  lemma {:induction false} UniqueKeepsFirstOccurrenceOrder(s: seq<string>)
    ensures forall i, j :: 0 <= i < j < |Unique(s)| ==> FirstIndex(s, Unique(s)[i]) < FirstIndex(s, Unique(s)[j])
  {
    if s != [] {
      var init := s[..|s| - 1];
      var last := s[|s| - 1];
      var u := Unique(init);
      UniqueKeepsFirstOccurrenceOrder(init);
      SplitLast(s);
      forall x | x in init
        ensures FirstIndex(s, x) == FirstIndex(init, x) < |init|
      {
        FirstIndexPrefix(init, [last], x);
      }
      if last !in u {
        assert FirstIndex(s, last) == |init|;
      }
    }
  }
}
