/**
 * The user service: creating or updating the WordPress user behind a
 * registration, copying the registration into user meta, reading it back,
 * and the camelCase to snake_case key conversion it relies on.
 *
 * WordPress's users and user meta are the fields of `UserService`; the
 * events table is the `EventRecorder` it holds. `wp_create_user` failing
 * is a parameter (its error message), as are `sanitize_text_field`, the
 * clock and whether the event insert succeeds. The BuddyBoss steps that
 * `createUser` and `updateUser` run in between (member type, xProfile,
 * role, state group) are modelled by their own modules.
 */
module UserService {
  import opened Php
  import RegistrationDto
  import Events

  // ---------------------------------------------------------------------
  // camelToSnakeCase
  // ---------------------------------------------------------------------

  /** A character of `[a-z0-9_]`. */
  predicate SnakeChar(c: char)
  {
    IsLowerChar(c) || '0' <= c <= '9' || c == '_'
  }

  /** The whole string is `[a-z][a-z0-9_]*`, the language of the snake_case pattern. */
  predicate SnakeWord(s: string)
  {
    |s| > 0 && IsLowerChar(s[0]) && forall i :: 1 <= i < |s| ==> SnakeChar(s[i])
  }

  /**
   * `preg_match('/^[a-z][a-z0-9_]*(_[a-z0-9]+)*$/', $s)`: the optional
   * groups add nothing to `[a-z0-9_]*`, and without the D modifier `$`
   * also matches just before one final newline.
   */
  predicate MatchesSnakePattern(s: string)
  {
    SnakeWord(s) || (|s| > 1 && s[|s| - 1] == '\n' && SnakeWord(s[..|s| - 1]))
  }

  /** `preg_replace('/[A-Z]/', '_$0', $s)`: every ASCII capital gets an underscore in front. */
  function UnderscoreCapitals(s: string): string
  {
    if s == [] then []
    else (if IsUpperChar(s[0]) then ['_', s[0]] else [s[0]]) + UnderscoreCapitals(s[1..])
  }

  /** Without capitals there is nothing to mark. */
  lemma {:induction false} UnderscoreCapitalsNoop(s: string)
    requires forall i :: 0 <= i < |s| ==> !IsUpperChar(s[i])
    ensures UnderscoreCapitals(s) == s
  {
    if s != [] {
      UnderscoreCapitalsNoop(s[1..]);
    }
  }

  /** The characters trimmed after the capitals are marked. */
  const Underscore: set<char> := {'_'}

  /** `camelToSnakeCase`. */
  function CamelToSnake(s: string): (r: string)
    ensures forall i :: 0 <= i < |r| ==> !IsUpperChar(r[i])
    ensures MatchesSnakePattern(s) ==> r == s
    ensures !MatchesSnakePattern(s) ==> r == [] || (r[0] != '_' && r[|r| - 1] != '_')
  {
    if MatchesSnakePattern(s) then s
    else
      var t := TrimBy(UnderscoreCapitals(s), Underscore);
      assert t == [] || (t[0] != '_' && t[|t| - 1] != '_');
      ToLower(t)
  }

  /** `s` with every underscore removed. */
  function Letters(s: string): string
  {
    if s == [] then [] else (if s[0] == '_' then [] else [s[0]]) + Letters(s[1..])
  }

  lemma {:induction false} LettersAppend(a: string, b: string)
    ensures Letters(a + b) == Letters(a) + Letters(b)
  {
    if a == [] {
      assert a + b == b;
    } else {
      assert (a + b)[1..] == a[1..] + b;
      LettersAppend(a[1..], b);
    }
  }

  lemma {:induction false} LettersOfUnderscoreCapitals(s: string)
    ensures Letters(UnderscoreCapitals(s)) == Letters(s)
  {
    if s != [] {
      var head := if IsUpperChar(s[0]) then ['_', s[0]] else [s[0]];
      assert UnderscoreCapitals(s) == head + UnderscoreCapitals(s[1..]);
      LettersOfUnderscoreCapitals(s[1..]);
      LettersAppend(head, UnderscoreCapitals(s[1..]));
      assert s == [s[0]] + s[1..];
      LettersAppend([s[0]], s[1..]);
      if IsUpperChar(s[0]) {
        assert head == ['_'] + [s[0]];
        LettersAppend(['_'], [s[0]]);
        assert Letters(['_']) == [];
      }
      assert Letters(head) == Letters([s[0]]);
    }
  }

  lemma {:induction false} LettersOfTrimLeft(s: string)
    ensures Letters(TrimLeft(s, Underscore)) == Letters(s)
  {
    if s != [] && s[0] in Underscore {
      LettersOfTrimLeft(s[1..]);
    }
  }

  lemma {:induction false} LettersOfTrimRight(s: string)
    ensures Letters(TrimRight(s, Underscore)) == Letters(s)
  {
    if s != [] && s[|s| - 1] in Underscore {
      var init := s[..|s| - 1];
      LettersOfTrimRight(init);
      assert s == init + ['_'];
      LettersAppend(init, ['_']);
      assert Letters(['_']) == [];
    }
  }

  lemma {:induction false} LettersOfLower(s: string)
    ensures Letters(ToLower(s)) == ToLower(Letters(s))
  {
    if s != [] {
      LettersOfLower(s[1..]);
      assert ToLower(s) == [LowerChar(s[0])] + ToLower(s[1..]);
      assert ToLower(s)[1..] == ToLower(s[1..]);
      var head := if s[0] == '_' then [] else [s[0]];
      assert ToLower(head + Letters(s[1..])) == ToLower(head) + ToLower(Letters(s[1..]));
    }
  }

  /**
   * Apart from underscores, the conversion only lowercases: dropping every
   * underscore from the result gives the lowercased input without its
   * underscores.
   */
  lemma CamelToSnakeOnlyLowercases(s: string)
    ensures Letters(CamelToSnake(s)) == if MatchesSnakePattern(s) then Letters(s) else ToLower(Letters(s))
  {
    if !MatchesSnakePattern(s) {
      var u := UnderscoreCapitals(s);
      LettersOfUnderscoreCapitals(s);
      LettersOfTrimLeft(u);
      LettersOfTrimRight(TrimLeft(u, Underscore));
      LettersOfLower(TrimBy(u, Underscore));
    }
  }

  lemma TrimUnderscoreNoop(s: string)
    requires s == [] || (s[0] != '_' && s[|s| - 1] != '_')
    ensures TrimBy(s, Underscore) == s
  {
    if s != [] {
      assert s[0] !in Underscore;
      assert TrimLeft(s, Underscore) == s;
      assert s[|s| - 1] !in Underscore;
      assert TrimRight(s, Underscore) == s;
    }
  }

  lemma NoCapitalsLowerNoop(s: string)
    requires forall i :: 0 <= i < |s| ==> !IsUpperChar(s[i])
    ensures ToLower(s) == s
  {
    assert forall i :: 0 <= i < |s| ==> LowerChar(s[i]) == s[i];
  }

  /** Converting an already converted key changes nothing. */
  lemma CamelToSnakeIdempotent(s: string)
    ensures CamelToSnake(CamelToSnake(s)) == CamelToSnake(s)
  {
    var r := CamelToSnake(s);
    if !MatchesSnakePattern(r) {
      assert !MatchesSnakePattern(s);
      UnderscoreCapitalsNoop(r);
      TrimUnderscoreNoop(r);
      NoCapitalsLowerNoop(r);
    }
  }

  lemma {:induction false} UnderscoreCapitalsAppend(a: string, b: string)
    ensures UnderscoreCapitals(a + b) == UnderscoreCapitals(a) + UnderscoreCapitals(b)
  {
    if a == [] {
      assert a + b == b;
    } else {
      assert (a + b)[1..] == a[1..] + b;
      UnderscoreCapitalsAppend(a[1..], b);
    }
  }

  /** A string outside the pattern is converted: capitals marked, underscores trimmed, lowercased. */
  lemma Converted(s: string, marked: string, trimmed: string)
    requires !MatchesSnakePattern(s)
    requires UnderscoreCapitals(s) == marked && TrimBy(marked, Underscore) == trimmed
    ensures CamelToSnake(s) == ToLower(trimmed)
  {
  }

  lemma TrimOneLeadingUnderscore(s: string)
    requires |s| >= 2 && s[0] == '_' && s[1] != '_' && s[|s| - 1] != '_'
    ensures TrimBy(s, Underscore) == s[1..]
  {
    assert s[1..][0] !in Underscore;
    assert TrimLeft(s, Underscore) == s[1..];
    TrimUnderscoreNoop(s[1..]);
  }

  /** A camelCase key of the registration form gets its underscore. */
  lemma CamelToSnakeEmailLogin()
    ensures CamelToSnake("emailLogin") == "email_login"
  {
    EmailLoginNotSnake("emailLogin");
    EmailLoginMarked("emailLogin");
    TrimUnderscoreNoop("email_Login");
    EmailLoginLowered("email_Login");
    Converted("emailLogin", "email_Login", "email_Login");
  }

  lemma EmailLoginNotSnake(s: string)
    requires s == "emailLogin"
    ensures !MatchesSnakePattern(s)
  {
    assert !SnakeChar(s[5]);
    assert s[|s| - 1] != '\n';
  }

  lemma EmailLoginMarked(s: string)
    requires s == "emailLogin"
    ensures UnderscoreCapitals(s) == "email_Login"
  {
    var a, b, c := "email", "L", "ogin";
    EmailLoginPieces(s, a, b, c);
    UnderscoreCapitalsAppend(a, b + c);
    UnderscoreCapitalsAppend(b, c);
    EmailLoginLowerPieces(a, c);
    UnderscoreCapitalsNoop(a);
    UnderscoreCapitalsNoop(c);
    assert UnderscoreCapitals(b) == "_L";
  }

  lemma EmailLoginPieces(s: string, a: string, b: string, c: string)
    requires s == "emailLogin" && a == "email" && b == "L" && c == "ogin"
    ensures s == a + (b + c) && "email_Login" == a + ("_L" + c)
  {
  }

  lemma EmailLoginLowerPieces(a: string, c: string)
    requires a == "email" && c == "ogin"
    ensures forall i :: 0 <= i < |a| ==> !IsUpperChar(a[i])
    ensures forall i :: 0 <= i < |c| ==> !IsUpperChar(c[i])
  {
  }

  lemma EmailLoginLowered(s: string)
    requires s == "email_Login"
    ensures ToLower(s) == "email_login"
  {
    assert ToLower(s)[6] == 'l';
  }

  /** A snake_case key is left alone. */
  lemma CamelToSnakeKeepsSnake()
    ensures CamelToSnake("nome_completo") == "nome_completo"
  {
    assert SnakeWord("nome_completo");
  }

  /** A leading capital loses its underscore. */
  lemma CamelToSnakeLeadingCapital()
    ensures CamelToSnake("Nome") == "nome"
  {
    LeadingCapitalNotSnake("Nome");
    LeadingCapitalMarked("Nome");
    TrimOneLeadingUnderscore("_Nome");
    LeadingCapitalLowered("Nome");
    Converted("Nome", "_Nome", "Nome");
  }

  lemma LeadingCapitalNotSnake(s: string)
    requires s == "Nome" || s == "CEP"
    ensures !MatchesSnakePattern(s)
  {
    assert !IsLowerChar(s[0]);
  }

  lemma LeadingCapitalMarked(s: string)
    requires s == "Nome"
    ensures UnderscoreCapitals(s) == "_Nome"
  {
    assert s == "N" + "ome";
    UnderscoreCapitalsAppend("N", "ome");
    UnderscoreCapitalsNoop("ome");
  }

  lemma LeadingCapitalLowered(s: string)
    requires s == "Nome"
    ensures ToLower(s) == "nome"
  {
    assert ToLower(s)[0] == 'n';
  }

  /** An acronym gets an underscore between each letter. */
  lemma CamelToSnakeAcronym()
    ensures CamelToSnake("CEP") == "c_e_p"
  {
    LeadingCapitalNotSnake("CEP");
    AcronymMarked("CEP");
    TrimOneLeadingUnderscore("_C_E_P");
    AcronymLowered("C_E_P");
    Converted("CEP", "_C_E_P", "C_E_P");
  }

  lemma AcronymMarked(s: string)
    requires s == "CEP"
    ensures UnderscoreCapitals(s) == "_C_E_P"
  {
    assert s == "C" + "E" + "P";
    UnderscoreCapitalsAppend("C" + "E", "P");
    UnderscoreCapitalsAppend("C", "E");
    assert UnderscoreCapitals("C") == "_C";
    assert UnderscoreCapitals("E") == "_E";
    assert UnderscoreCapitals("P") == "_P";
  }

  lemma AcronymLowered(s: string)
    requires s == "C_E_P"
    ensures ToLower(s) == "c_e_p"
  {
    assert ToLower(s)[0] == 'c' && ToLower(s)[2] == 'e' && ToLower(s)[4] == 'p';
  }

  // ---------------------------------------------------------------------
  // storeUserMeta
  // ---------------------------------------------------------------------

  /** The user meta table: (user id, meta key) to the stored value. */
  type Meta = map<(nat, string), Value>

  /** The meta value of one user under one key, if any. */
  function MetaValue(meta: Meta, userId: nat, key: string): Option<Value>
  {
    if (userId, key) in meta then Some(meta[(userId, key)]) else None
  }

  /** A value `storeUserMeta` does not write: '' or null. */
  predicate SkippedMeta(v: Value)
  {
    v == Str("") || v == Null
  }

  /** The prefix of the second copy of every meta key. */
  const MetaPrefix: string := "fpse_"

  /** One iteration: a written value goes under `fpse_` + its snake_case key, then under the snake_case key. */
  function WriteMeta(meta: Meta, userId: nat, key: string, v: Value): Meta
  {
    if SkippedMeta(v) then meta
    else meta[(userId, MetaPrefix + CamelToSnake(key)) := v][(userId, CamelToSnake(key)) := v]
  }

  /** The meta table after the loop has visited `data` in order. */
  function MetaAfter(meta: Meta, userId: nat, data: Entries): Meta
  {
    if data == [] then meta
    else WriteMeta(MetaAfter(meta, userId, data[..|data| - 1]), userId, data[|data| - 1].0, data[|data| - 1].1)
  }

  /** A meta key some written entry of `data` goes to. */
  predicate WrittenKey(data: Entries, key: string)
  {
    exists i :: 0 <= i < |data| && !SkippedMeta(data[i].1)
      && (key == CamelToSnake(data[i].0) || key == MetaPrefix + CamelToSnake(data[i].0))
  }

  /** Only the user's written keys change: every other user and every other key keeps its value. */
  lemma {:induction false} MetaFrame(meta: Meta, userId: nat, data: Entries, u: nat, key: string)
    requires u != userId || !WrittenKey(data, key)
    ensures MetaValue(MetaAfter(meta, userId, data), u, key) == MetaValue(meta, u, key)
  {
    if data != [] {
      var init := data[..|data| - 1];
      assert forall i :: 0 <= i < |init| ==> init[i] == data[i];
      MetaFrame(meta, userId, init, u, key);
    }
  }

  /** The written entries have different snake_case keys, none of which starts with `fpse_`. */
  predicate SeparateMetaKeys(data: Entries)
  {
    (forall i :: 0 <= i < |data| && !SkippedMeta(data[i].1) ==> !StartsWith(CamelToSnake(data[i].0), MetaPrefix))
    && forall i, j :: 0 <= i < j < |data| && !SkippedMeta(data[i].1) && !SkippedMeta(data[j].1) ==>
         CamelToSnake(data[i].0) != CamelToSnake(data[j].0)
  }

  /**
   * When the written keys do not collide, every entry with a value other
   * than '' or null ends up under both its snake_case key and the
   * `fpse_`-prefixed one.
   */
  lemma MetaWritesBothKeys(meta: Meta, userId: nat, data: Entries, i: nat)
    requires SeparateMetaKeys(data)
    requires i < |data| && !SkippedMeta(data[i].1)
    ensures var after := MetaAfter(meta, userId, data);
      MetaValue(after, userId, CamelToSnake(data[i].0)) == Some(data[i].1)
      && MetaValue(after, userId, MetaPrefix + CamelToSnake(data[i].0)) == Some(data[i].1)
  {
    var a := CamelToSnake(data[i].0);
    forall j | i < j < |data|
      ensures LaterKeyApart(data[j], a)
    {
      if !SkippedMeta(data[j].1) {
        SeparatePair(data, i, j);
      }
    }
    MetaWritesKey(meta, userId, data, i, a);
  }

  /** An entry written after the one whose snake_case key is `a` goes to other keys. */
  predicate LaterKeyApart(e: (string, Value), a: string)
  {
    !SkippedMeta(e.1) ==> CamelToSnake(e.0) != a && !StartsWith(CamelToSnake(e.0), MetaPrefix)
  }

  lemma {:induction false} MetaWritesKey(meta: Meta, userId: nat, data: Entries, i: nat, a: string)
    requires i < |data| && !SkippedMeta(data[i].1) && CamelToSnake(data[i].0) == a && !StartsWith(a, MetaPrefix)
    requires forall j :: i < j < |data| ==> LaterKeyApart(data[j], a)
    ensures var after := MetaAfter(meta, userId, data);
      MetaValue(after, userId, a) == Some(data[i].1) && MetaValue(after, userId, MetaPrefix + a) == Some(data[i].1)
  {
    var init := data[..|data| - 1];
    var last := data[|data| - 1];
    var before := MetaAfter(meta, userId, init);
    assert MetaAfter(meta, userId, data) == WriteMeta(before, userId, last.0, last.1);
    if i < |data| - 1 {
      assert LaterKeyApart(last, a);
      assert forall j :: i < j < |init| ==> init[j] == data[j];
      MetaWritesKey(meta, userId, init, i, a);
      if !SkippedMeta(last.1) {
        WriteMetaKeepsBoth(before, userId, last.0, last.1, a);
      }
    } else {
      WriteMetaSets(before, userId, last.0, last.1);
    }
  }

  lemma SeparatePair(data: Entries, i: nat, j: nat)
    requires SeparateMetaKeys(data)
    requires i < j < |data| && !SkippedMeta(data[i].1) && !SkippedMeta(data[j].1)
    ensures CamelToSnake(data[i].0) != CamelToSnake(data[j].0)
    ensures !StartsWith(CamelToSnake(data[i].0), MetaPrefix) && !StartsWith(CamelToSnake(data[j].0), MetaPrefix)
  {
  }

  /** A later write under another unprefixed key leaves both copies of an earlier key alone. */
  lemma WriteMetaKeepsBoth(meta: Meta, userId: nat, key: string, v: Value, a: string)
    requires !SkippedMeta(v)
    requires a != CamelToSnake(key) && !StartsWith(a, MetaPrefix) && !StartsWith(CamelToSnake(key), MetaPrefix)
    ensures MetaValue(WriteMeta(meta, userId, key, v), userId, a) == MetaValue(meta, userId, a)
    ensures MetaValue(WriteMeta(meta, userId, key, v), userId, MetaPrefix + a) == MetaValue(meta, userId, MetaPrefix + a)
  {
    PrefixSeparates(a, CamelToSnake(key));
    WriteMetaKeeps(meta, userId, key, v, a);
    WriteMetaKeeps(meta, userId, key, v, MetaPrefix + a);
  }

  /** One write leaves a key alone that is neither of the two it writes. */
  lemma WriteMetaKeeps(meta: Meta, userId: nat, key: string, v: Value, other: string)
    requires !SkippedMeta(v)
    requires other != CamelToSnake(key) && other != MetaPrefix + CamelToSnake(key)
    ensures MetaValue(WriteMeta(meta, userId, key, v), userId, other) == MetaValue(meta, userId, other)
  {
  }

  /** Keys on either side of the prefix are different keys. */
  lemma PrefixSeparates(a: string, b: string)
    requires a != b && !StartsWith(a, MetaPrefix) && !StartsWith(b, MetaPrefix)
    ensures a != MetaPrefix + b && MetaPrefix + a != b && MetaPrefix + a != MetaPrefix + b
  {
    assert (MetaPrefix + a)[|MetaPrefix|..] == a && (MetaPrefix + b)[|MetaPrefix|..] == b;
  }

  /** One write puts the value under both keys. */
  lemma WriteMetaSets(meta: Meta, userId: nat, key: string, v: Value)
    requires !SkippedMeta(v)
    ensures MetaValue(WriteMeta(meta, userId, key, v), userId, CamelToSnake(key)) == Some(v)
    ensures MetaValue(WriteMeta(meta, userId, key, v), userId, MetaPrefix + CamelToSnake(key)) == Some(v)
  {
    assert |MetaPrefix + CamelToSnake(key)| != |CamelToSnake(key)|;
  }

  // ---------------------------------------------------------------------
  // getUserData
  // ---------------------------------------------------------------------

  /** A WordPress user as far as the plugin reads and writes it. */
  datatype User = User(id: nat, login: string, email: string, displayName: string, password: string)

  /** `reset($values)`: the first value, false for an empty list. */
  function FirstValue(values: seq<Value>): Value
  {
    if values == [] then Bool(false) else values[0]
  }

  /** A private meta key, skipped by `getUserData`. */
  predicate PrivateKey(key: string)
  {
    StartsWith(key, "_")
  }

  /** The public meta keys with their first value passed through `maybe_unserialize`, in order. */
  function PublicMeta(allMeta: seq<(string, seq<Value>)>, unserialize: Value -> Value): (r: Entries)
    ensures forall i :: 0 <= i < |r| ==> !PrivateKey(r[i].0)
    ensures forall k :: k in Keys(r) ==> k in Keys(allMeta)
  {
    if allMeta == [] then []
    else
      var init := allMeta[..|allMeta| - 1];
      var (k, vs) := allMeta[|allMeta| - 1];
      var rest := PublicMeta(init, unserialize);
      forall k' | k' in Keys(init)
        ensures k' in Keys(allMeta)
      {
        var j :| 0 <= j < |init| && Keys(init)[j] == k';
        assert Keys(allMeta)[j] == k';
      }
      assert Keys(allMeta)[|allMeta| - 1] == k;
      if PrivateKey(k) then rest
      else
        var r := rest + [(k, unserialize(FirstValue(vs)))];
        assert Keys(r) == Keys(rest) + [k];
        r
  }

  /** The three keys taken from the user record. */
  function UserBasics(u: User): Entries
  {
    [("id", Int(u.id)), ("email", Str(u.email)), ("display_name", Str(u.displayName))]
  }

  /** What `getUserData` returns: [] for an unknown user, else the basics overlaid with the public meta. */
  function UserData(user: Option<User>, allMeta: seq<(string, seq<Value>)>, unserialize: Value -> Value): Entries
  {
    match user
    case None => []
    case Some(u) => PutAll(UserBasics(u), PublicMeta(allMeta, unserialize))
  }

  /**
   * `getUserData`: `user` is what `get_userdata` found, `allMeta` what
   * `get_user_meta` lists for that user, `unserialize` is `maybe_unserialize`.
   */
  method GetUserData(user: Option<User>, allMeta: seq<(string, seq<Value>)>, unserialize: Value -> Value)
    returns (data: Entries)
    ensures data == UserData(user, allMeta, unserialize)
  {
    if user.None? {
      return [];
    }
    data := UserBasics(user.value);
    var i := 0;
    while i < |allMeta|
      invariant 0 <= i <= |allMeta|
      invariant data == PutAll(UserBasics(user.value), PublicMeta(allMeta[..i], unserialize))
    {
      assert allMeta[..i + 1][..i] == allMeta[..i];
      var (key, values) := allMeta[i];
      if !PrivateKey(key) {
        PutAllSnoc(UserBasics(user.value), PublicMeta(allMeta[..i], unserialize), key, unserialize(FirstValue(values)));
        data := Put(data, key, unserialize(FirstValue(values)));
      }
      i := i + 1;
    }
    assert allMeta[..i] == allMeta;
  }

  lemma {:induction false} PublicMetaLookup(allMeta: seq<(string, seq<Value>)>, unserialize: Value -> Value, i: nat)
    requires DistinctKeys(allMeta) && i < |allMeta| && !PrivateKey(allMeta[i].0)
    ensures Lookup(PublicMeta(allMeta, unserialize), allMeta[i].0) == Some(unserialize(FirstValue(allMeta[i].1)))
  {
    var init := allMeta[..|allMeta| - 1];
    var (k, vs) := allMeta[|allMeta| - 1];
    var rest := PublicMeta(init, unserialize);
    assert forall j :: 0 <= j < |init| ==> init[j] == allMeta[j];
    if i < |allMeta| - 1 {
      PublicMetaLookup(init, unserialize, i);
      LookupAppend(rest, [(k, unserialize(FirstValue(vs)))], allMeta[i].0);
    } else {
      assert k !in Keys(init);
      assert k !in Keys(rest);
      LookupAppend(rest, [(k, unserialize(FirstValue(vs)))], k);
    }
  }

  lemma {:induction false} PublicMetaDistinct(allMeta: seq<(string, seq<Value>)>, unserialize: Value -> Value)
    requires DistinctKeys(allMeta)
    ensures DistinctKeys(PublicMeta(allMeta, unserialize))
  {
    if allMeta != [] {
      var init := allMeta[..|allMeta| - 1];
      var (k, vs) := allMeta[|allMeta| - 1];
      assert forall j :: 0 <= j < |init| ==> init[j] == allMeta[j];
      PublicMetaDistinct(init, unserialize);
      var rest := PublicMeta(init, unserialize);
      assert k !in Keys(init);
      forall j | 0 <= j < |rest|
        ensures rest[j].0 != k
      {
        assert Keys(rest)[j] == rest[j].0;
      }
    }
  }

  /**
   * `getUserData` of an unknown user is empty; otherwise no private key
   * appears, every public meta key carries its first value unserialised,
   * and `id`, `email` and `display_name` come from the user unless a meta
   * key of the same name overrides them.
   */
  lemma UserDataFacts(user: Option<User>, allMeta: seq<(string, seq<Value>)>, unserialize: Value -> Value, k: string)
    requires DistinctKeys(allMeta)
    ensures user.None? ==> UserData(user, allMeta, unserialize) == []
    ensures PrivateKey(k) ==> Lookup(UserData(user, allMeta, unserialize), k).None?
    ensures user.Some? && k in Keys(allMeta) && !PrivateKey(k) ==>
      Lookup(UserData(user, allMeta, unserialize), k) == Some(unserialize(FirstValue(allMeta[IndexOfKey(allMeta, k)].1)))
    ensures user.Some? && k !in Keys(allMeta) ==> Lookup(UserData(user, allMeta, unserialize), k) == Lookup(UserBasics(user.value), k)
  {
    if user.Some? {
      var basics := UserBasics(user.value);
      var pub := PublicMeta(allMeta, unserialize);
      assert UserData(user, allMeta, unserialize) == PutAll(basics, pub);
      PublicMetaDistinct(allMeta, unserialize);
      PutAllDistinctLookup(basics, pub, k);
      if PrivateKey(k) {
        PrivateKeyNotBasic(user.value, k);
        PrivateKeyNotPublic(pub, k);
      } else if k in Keys(allMeta) {
        var i := IndexOfKey(allMeta, k);
        PublicMetaLookup(allMeta, unserialize, i);
      } else {
        assert k !in Keys(pub);
      }
    }
  }

  lemma PrivateKeyNotBasic(u: User, k: string)
    requires PrivateKey(k)
    ensures Lookup(UserBasics(u), k).None?
  {
    assert k[0] == '_';
  }

  lemma PrivateKeyNotPublic(pub: Entries, k: string)
    requires PrivateKey(k)
    requires forall i :: 0 <= i < |pub| ==> !PrivateKey(pub[i].0)
    ensures k !in Keys(pub)
  {
    forall j | 0 <= j < |pub|
      ensures Keys(pub)[j] != k
    {
      assert Keys(pub)[j] == pub[j].0;
    }
  }

  /** The position of a key in an array. */
  function IndexOfKey<V>(t: seq<(string, V)>, k: string): (i: nat)
    requires k in Keys(t)
    ensures i < |t| && t[i].0 == k
  {
    if t[0].0 == k then 0
    else
      assert Keys(t) == [t[0].0] + Keys(t[1..]);
      1 + IndexOfKey(t[1..], k)
  }

  // ---------------------------------------------------------------------
  // createOrUpdate, createUser, updateUser
  // ---------------------------------------------------------------------

  /** PHP's `(string)` conversion: integers in decimal, true as '1', false and null as '', an array as 'Array'. */
  function StringCast(v: Value): string
  {
    match v
    case Str(s) => s
    case Int(i) => IntText(i)
    case Bool(b) => if b then "1" else ""
    case Null => ""
    case Arr(_) => "Array"
  }

  /** `$v ?? 'unknown'`. */
  function OrUnknown(v: Value): string
  {
    if v == Null then "unknown" else StringCast(v)
  }

  /**
   * How `get_user_by` compares: the looked-up value is trimmed, and the
   * users table's collation ignores letter case. Its trailing-space padding
   * never matters here: `wp_insert_user` stores logins and e-mails trimmed,
   * and the trimmed value has no trailing space either.
   */
  predicate UserColumnMatches(column: string, value: string)
  {
    ToLower(column) == ToLower(Trim(value))
  }

  /** On a stored (trimmed) column the comparison is the collation's, applied to the trimmed value. */
  lemma UserColumnMatchesCollates(column: string, value: string)
    requires column == [] || column[|column| - 1] != ' '
    ensures UserColumnMatches(column, value) <==> Events.Collates(column, Trim(value))
  {
    var t := Trim(value);
    assert t == TrimRight(TrimLeft(value, Whitespace), Whitespace);
    assert t == [] || t[|t| - 1] !in Whitespace;
    assert TrimRight(t, {' '}) == t by {
      if t != [] {
        assert t[|t| - 1] != ' ';
      }
    }
    assert TrimRight(column, {' '}) == column;
    assert Events.CollationKey(column) == ToLower(column) && Events.CollationKey(t) == ToLower(t);
  }

  /** The position of the first user `p` holds of: the one row a `get_user_by` query returns. */
  function FirstUser(users: seq<User>, p: User -> bool): (r: Option<nat>)
    ensures r.Some? ==> r.value < |users|
  {
    if users == [] then None
    else if p(users[0]) then Some(0)
    else match FirstUser(users[1..], p)
      case None => None
      case Some(j) => Some(j + 1)
  }

  /** The search answers the first user that matches, and nothing exactly when no user matches. */
  lemma {:induction false} FirstUserExact(users: seq<User>, p: User -> bool)
    ensures var r := FirstUser(users, p);
      r.Some? ==> p(users[r.value]) && forall j :: 0 <= j < r.value ==> !p(users[j])
    ensures FirstUser(users, p).None? <==> forall j :: 0 <= j < |users| ==> !p(users[j])
  {
    if users != [] && !p(users[0]) {
      FirstUserExact(users[1..], p);
      assert forall j :: 1 <= j < |users| ==> users[1..][j - 1] == users[j];
    }
  }

  /** Appending a user: earlier matches win, and the new user is found only when no earlier one matches. */
  lemma {:induction false} FirstUserSnoc(users: seq<User>, u: User, p: User -> bool)
    ensures FirstUser(users + [u], p)
      == if FirstUser(users, p).Some? then FirstUser(users, p)
         else if p(u) then Some(|users|) else None
  {
    if users == [] {
      assert users + [u] == [u];
    } else {
      assert (users + [u])[1..] == users[1..] + [u];
      FirstUserSnoc(users[1..], u, p);
    }
  }

  /** The first user with the given login (`get_user_by('login', ...)`, also behind `username_exists`). */
  function FindByLogin(users: seq<User>, login: string): (r: Option<nat>)
    ensures r.Some? ==> r.value < |users|
  {
    FirstUser(users, (u: User) => UserColumnMatches(u.login, login))
  }

  /** The first user with the given e-mail (`get_user_by('email', ...)`). */
  function FindByEmail(users: seq<User>, email: string): (r: Option<nat>)
    ensures r.Some? ==> r.value < |users|
  {
    FirstUser(users, (u: User) => UserColumnMatches(u.email, email))
  }

  /** The login search finds the first user whose login matches, and nothing exactly when none does. */
  lemma FindByLoginExact(users: seq<User>, login: string)
    ensures var r := FindByLogin(users, login);
      r.Some? ==> UserColumnMatches(users[r.value].login, login)
                  && forall j :: 0 <= j < r.value ==> !UserColumnMatches(users[j].login, login)
    ensures FindByLogin(users, login).None? <==> forall j :: 0 <= j < |users| ==> !UserColumnMatches(users[j].login, login)
  {
    FirstUserExact(users, (u: User) => UserColumnMatches(u.login, login));
  }

  /** The e-mail search finds the first user whose e-mail matches, and nothing exactly when none does. */
  lemma FindByEmailExact(users: seq<User>, email: string)
    ensures var r := FindByEmail(users, email);
      r.Some? ==> UserColumnMatches(users[r.value].email, email)
                  && forall j :: 0 <= j < r.value ==> !UserColumnMatches(users[j].email, email)
    ensures FindByEmail(users, email).None? <==> forall j :: 0 <= j < |users| ==> !UserColumnMatches(users[j].email, email)
  {
    FirstUserExact(users, (u: User) => UserColumnMatches(u.email, email));
  }

  /** The way `createOrUpdate` goes, decided before anything changes. */
  datatype Path =
    | MissingFields(missing: seq<string>)
    | Update(index: nat)
    | LoginTaken
    | ShortPassword
    | CreateRejected(message: string)
    | Create

  /** The login of the registration. */
  function LoginOf(dto: RegistrationDto.Dto): string
  {
    StringCast(RegistrationDto.Prop(dto, "emailLogin"))
  }

  /** The existing user: by login first, then, when the e-mail is not empty, by e-mail. */
  function ExistingUser(dto: RegistrationDto.Dto, users: seq<User>): Option<nat>
  {
    var byLogin := FindByLogin(users, LoginOf(dto));
    var email := RegistrationDto.Prop(dto, "email");
    if byLogin.None? && !EmptyValue(email) then FindByEmail(users, StringCast(email)) else byLogin
  }

  /** WordPress's minimum password length, checked by `createUser`. */
  const MinPasswordLength: nat := 6

  /** `createUser`'s guards, in order: login taken, then a short or empty password, then `wp_create_user` failing. */
  function CreatePath(dto: RegistrationDto.Dto, users: seq<User>, createError: Option<string>): Path
  {
    var senha := RegistrationDto.Prop(dto, "senhaLogin");
    if FindByLogin(users, LoginOf(dto)).Some? then LoginTaken
    else if EmptyValue(senha) || |StringCast(senha)| < MinPasswordLength then ShortPassword
    else if createError.Some? then CreateRejected(createError.value)
    else Create
  }

  /** `createOrUpdate`'s decision: the minimum fields, then an existing user, then `createUser`. */
  function Decide(dto: RegistrationDto.Dto, users: seq<User>, createError: Option<string>): (p: Path)
    ensures p.Update? ==> p.index < |users|
  {
    var missing := RegistrationDto.EmptyAmong(dto, RegistrationDto.MinimumFields);
    if missing != [] then MissingFields(missing)
    else match ExistingUser(dto, users)
      case Some(i) => Update(i)
      case None => CreatePath(dto, users, createError)
  }

  /**
   * The guard order: a failed minimum check wins; then a user found by
   * login, or else by a non-empty e-mail, is updated; only when there is
   * none does `createUser` run, and its login check can then never fire,
   * because the login was already looked up.
   */
  lemma DecideOrder(dto: RegistrationDto.Dto, users: seq<User>, createError: Option<string>)
    ensures Decide(dto, users, createError).MissingFields? <==> RegistrationDto.EmptyAmong(dto, RegistrationDto.MinimumFields) != []
    ensures var p := Decide(dto, users, createError);
      !p.MissingFields? && FindByLogin(users, LoginOf(dto)).Some? ==> p == Update(FindByLogin(users, LoginOf(dto)).value)
    ensures var p := Decide(dto, users, createError);
      p.Update? ==> (p.index < |users|
        && (UserColumnMatches(users[p.index].login, LoginOf(dto))
            || (!EmptyValue(RegistrationDto.Prop(dto, "email")) && UserColumnMatches(users[p.index].email, StringCast(RegistrationDto.Prop(dto, "email"))))))
    ensures Decide(dto, users, createError) != LoginTaken
    ensures var p := Decide(dto, users, createError);
      (p.ShortPassword? || p.CreateRejected? || p.Create?) ==> forall j :: 0 <= j < |users| ==> !UserColumnMatches(users[j].login, LoginOf(dto))
    ensures var p := Decide(dto, users, createError); var email := RegistrationDto.Prop(dto, "email");
      !p.MissingFields? && FindByLogin(users, LoginOf(dto)).None? && !EmptyValue(email) && FindByEmail(users, StringCast(email)).Some?
      ==> p == Update(FindByEmail(users, StringCast(email)).value)
    ensures var p := Decide(dto, users, createError); var email := RegistrationDto.Prop(dto, "email");
      (p.ShortPassword? || p.CreateRejected? || p.Create?) && !EmptyValue(email)
      ==> forall j :: 0 <= j < |users| ==> !UserColumnMatches(users[j].email, StringCast(email))
    ensures Decide(dto, users, createError) == Create ==>
      !EmptyValue(RegistrationDto.Prop(dto, "senhaLogin")) && |StringCast(RegistrationDto.Prop(dto, "senhaLogin"))| >= MinPasswordLength
  {
    FindByLoginExact(users, LoginOf(dto));
    if RegistrationDto.Prop(dto, "email") != Null {
      FindByEmailExact(users, StringCast(RegistrationDto.Prop(dto, "email")));
    }
  }

  /** Appending a user: earlier matches win, and the new user is found only when no earlier one has the login. */
  lemma FindByLoginSnoc(users: seq<User>, u: User, login: string)
    ensures FindByLogin(users + [u], login)
      == if FindByLogin(users, login).Some? then FindByLogin(users, login)
         else if UserColumnMatches(u.login, login) then Some(|users|) else None
  {
    FirstUserSnoc(users, u, (v: User) => UserColumnMatches(v.login, login));
  }

  /**
   * Submitting the same registration again after it created a user updates
   * that user instead of creating a second one.
   */
  lemma ResubmitUpdates(dto: RegistrationDto.Dto, users: seq<User>, id: nat, createError: Option<string>, createError': Option<string>)
    requires Decide(dto, users, createError) == Create
    ensures Decide(dto, users + [NewUser(id, dto)], createError') == Update(|users|)
  {
    var u := NewUser(id, dto);
    assert RegistrationDto.EmptyAmong(dto, RegistrationDto.MinimumFields) == [];
    TrimmedLoginFound(users, u, LoginOf(dto));
    assert ExistingUser(dto, users + [u]) == Some(|users|);
  }

  /** A user stored under the trimmed login is found by that login when no earlier user has it. */
  lemma TrimmedLoginFound(users: seq<User>, u: User, login: string)
    requires FindByLogin(users, login).None? && u.login == Trim(login)
    ensures FindByLogin(users + [u], login) == Some(|users|)
  {
    FindByLoginSnoc(users, u, login);
  }

  /** Three-letter texts whose letters agree up to ASCII case lowercase to the same text. */
  lemma LowerSameLetters(a0: char, a1: char, a2: char, b0: char, b1: char, b2: char)
    requires LowerChar(a0) == LowerChar(b0) && LowerChar(a1) == LowerChar(b1) && LowerChar(a2) == LowerChar(b2)
    ensures ToLower([a0, a1, a2]) == ToLower([b0, b1, b2])
  {
    var a, b := ToLower([a0, a1, a2]), ToLower([b0, b1, b2]);
    assert a[0] == b[0] && a[1] == b[1] && a[2] == b[2];
  }

  /** " A@B" is looked up as "a@b": trimmed, then compared without letter case. */
  lemma PaddedEmailMatches()
    ensures UserColumnMatches("a@b", " A@B")
  {
    var email := " A@B";
    assert email[0] == ' ' && email[1..] == "A@B";
    assert "A@B"[0] == 'A' && 'A' !in Whitespace;
    assert TrimLeft("A@B", Whitespace) == "A@B";
    assert Trim(email) == "A@B";
    LowerSameLetters('A', '@', 'B', 'a', '@', 'b');
  }

  /** "ANA" is looked up as "ana". */
  lemma UpperLoginMatches()
    ensures UserColumnMatches("ana", "ANA")
  {
    var login := "ANA";
    assert login[0] == 'A' && login[2] == 'A' && 'A' !in Whitespace;
    assert TrimLeft(login, Whitespace) == login;
    assert TrimRight(login, Whitespace) == login;
    assert Trim(login) == login;
    LowerSameLetters('A', 'N', 'A', 'a', 'n', 'a');
  }

  /** A stored "a@b" is found by " A@B" and the login "ana" by "ANA", so such a resubmission updates. */
  lemma LookupIgnoresCaseAndOuterSpace()
    ensures FindByEmail([User(1, "ana", "a@b", "Ana", "segredo")], " A@B") == Some(0)
    ensures FindByLogin([User(1, "ana", "a@b", "Ana", "segredo")], "ANA") == Some(0)
  {
    PaddedEmailMatches();
    UpperLoginMatches();
  }

  const MissingFieldsMessage: string := "Campos obrigatórios faltando: "
  const LoginTakenMessage: string := "Email de login já cadastrado"
  const ShortPasswordMessage: string := "Senha deve ter pelo menos 6 caracteres"
  const CreatedMessage: string := "Usuário criado com sucesso"
  const UpdatedMessage: string := "Usuário atualizado com sucesso"

  /** The array `createOrUpdate` returns. */
  datatype ServiceResult = ServiceResult(success: bool, userId: Option<nat>, message: string)

  /** What `createOrUpdate` answers on each path; a created user receives `nextUserId`. */
  function Answer(path: Path, users: seq<User>, nextUserId: nat): (r: ServiceResult)
    requires path.Update? ==> path.index < |users|
    ensures r.success <==> path.Update? || path.Create?
    ensures r.success ==> r.userId.Some?
  {
    match path
    case MissingFields(missing) => ServiceResult(false, None, MissingFieldsMessage + Join(missing, ", "))
    case Update(i) => ServiceResult(true, Some(users[i].id), UpdatedMessage)
    case LoginTaken => ServiceResult(false, None, LoginTakenMessage)
    case ShortPassword => ServiceResult(false, None, ShortPasswordMessage)
    case CreateRejected(message) => ServiceResult(false, None, message)
    case Create => ServiceResult(true, Some(nextUserId), CreatedMessage)
  }

  /**
   * The event rows `createOrUpdate` appends on each path, when the insert
   * succeeds: the missing fields as a validation error, the update, or the
   * registration; the `createUser` rejections append nothing.
   */
  function ServiceRows(path: Path, dto: RegistrationDto.Dto, users: seq<User>, nextUserId: nat, nextId: nat,
                       sanitize: string -> string, now: string, insertOk: bool): seq<Events.EventRow>
    requires path.Update? ==> path.index < |users|
  {
    var perfil := OrUnknown(RegistrationDto.Prop(dto, "perfilUsuario"));
    var estado := OrUnknown(RegistrationDto.Prop(dto, "estado"));
    if !insertOk then []
    else match path
      case MissingFields(missing) =>
        [Events.NewRow(nextId, 0, "validation_error", perfil, estado, Events.ErrorsMetadata(ListValue(missing)), sanitize, now)]
      case Update(i) => [Events.NewRow(nextId, users[i].id, "user_updated", perfil, estado, ActionMetadata("user_updated"), sanitize, now)]
      case Create => [Events.NewRow(nextId, nextUserId, "registered", perfil, estado, ActionMetadata("user_created"), sanitize, now)]
      case _ => []
  }

  /** The users after `createOrUpdate`: the found user rewritten, the new user appended, or as they were. */
  function ServiceUsers(path: Path, dto: RegistrationDto.Dto, users: seq<User>, nextUserId: nat): seq<User>
    requires path.Update? ==> path.index < |users|
  {
    match path
    case Update(i) => users[i := UpdatedUser(users[i], dto)]
    case Create => users + [NewUser(nextUserId, dto)]
    case _ => users
  }

  /** The user meta after `createOrUpdate`: the registration's fields stored for the updated or created user, or as it was. */
  function ServiceMeta(path: Path, dto: RegistrationDto.Dto, users: seq<User>, nextUserId: nat, meta: Meta): Meta
    requires path.Update? ==> path.index < |users|
  {
    match path
    case Update(i) => MetaAfter(meta, users[i].id, RegistrationDto.ArrayOf(dto))
    case Create => MetaAfter(meta, nextUserId, RegistrationDto.ArrayOf(dto))
    case _ => meta
  }

  /**
   * What each path changes: a declined registration touches neither users
   * nor meta and appends at most its validation error; an accepted one
   * appends, when the insert succeeds, exactly one row, about the user it
   * answers with; only a creation adds a user.
   */
  lemma ServiceEffects(path: Path, dto: RegistrationDto.Dto, users: seq<User>, nextUserId: nat, meta: Meta, nextId: nat,
                       sanitize: string -> string, now: string, insertOk: bool)
    requires path.Update? ==> path.index < |users|
    ensures var r := Answer(path, users, nextUserId);
      !r.success ==> ServiceUsers(path, dto, users, nextUserId) == users && ServiceMeta(path, dto, users, nextUserId, meta) == meta
    ensures |ServiceUsers(path, dto, users, nextUserId)| == |users| + if path.Create? then 1 else 0
    ensures var r := Answer(path, users, nextUserId);
      var rows := ServiceRows(path, dto, users, nextUserId, nextId, sanitize, now, insertOk);
      |rows| == (if insertOk && (r.success || path.MissingFields?) then 1 else 0)
      && (insertOk && r.success ==> rows[0].userId == r.userId.value && rows[0].id == nextId)
  {
  }

  /**
   * The new user `wp_create_user` adds; the e-mail defaults to the login,
   * the display name is set right after. `wp_insert_user` trims the login
   * and the e-mail before storing them.
   */
  function NewUser(id: nat, dto: RegistrationDto.Dto): User
  {
    var email := RegistrationDto.Prop(dto, "email");
    User(id, Trim(LoginOf(dto)), Trim(if email == Null then LoginOf(dto) else StringCast(email)),
         StringCast(RegistrationDto.Prop(dto, "nomeCompleto")), StringCast(RegistrationDto.Prop(dto, "senhaLogin")))
  }

  /** `updateUser`'s changes to the user: display name and (trimmed) e-mail, and the password when one was given. */
  function UpdatedUser(u: User, dto: RegistrationDto.Dto): User
  {
    var senha := RegistrationDto.Prop(dto, "senhaLogin");
    u.(displayName := StringCast(RegistrationDto.Prop(dto, "nomeCompleto")),
       email := Trim(StringCast(RegistrationDto.Prop(dto, "email"))),
       password := if EmptyValue(senha) then u.password else StringCast(senha))
  }

  /** The `['action' => ...]` metadata of the registration and update events. */
  function ActionMetadata(action: string): Value
  {
    Arr([("action", Str(action))])
  }

  /** The registration's WordPress side: users, their meta, and the events table. */
  class UserService {
    var users: seq<User>
    var nextUserId: nat
    var meta: Meta
    const events: Events.EventRecorder

    /** User ids are positive and below the next id; the events table is well formed. */
    predicate Valid()
      reads this, events
    {
      events.Valid() && nextUserId > 0 && forall i :: 0 <= i < |users| ==> 0 < users[i].id < nextUserId
    }

    constructor(events: Events.EventRecorder)
      requires events.Valid()
      ensures Valid() && this.events == events && users == [] && meta == map[] && nextUserId == 1
    {
      this.events := events;
      users := [];
      meta := map[];
      nextUserId := 1;
    }

    /** `storeUserMeta`: every entry of the registration array, except '' and null, under both keys. */
    method StoreUserMeta(userId: nat, dto: RegistrationDto.Dto)
      modifies this`meta
      ensures meta == MetaAfter(old(meta), userId, RegistrationDto.ArrayOf(dto))
      ensures users == old(users) && nextUserId == old(nextUserId)
    {
      var data := RegistrationDto.ToArray(dto);
      meta := WriteAllMeta(meta, userId, data);
    }

    /** The loop of `storeUserMeta` over the registration array `data`. */
    static method WriteAllMeta(start: Meta, userId: nat, data: Entries) returns (meta: Meta)
      ensures meta == MetaAfter(start, userId, data)
    {
      meta := start;
      var i := 0;
      while i < |data|
        invariant 0 <= i <= |data|
        invariant meta == MetaAfter(start, userId, data[..i])
      {
        assert data[..i + 1][..i] == data[..i];
        var (key, value) := data[i];
        if value != Str("") && value != Null {
          var metaKey := CamelToSnake(key);
          var fullMetaKey := MetaPrefix + metaKey;
          meta := meta[(userId, fullMetaKey) := value];
          meta := meta[(userId, metaKey) := value];
        }
        i := i + 1;
      }
      assert data[..i] == data;
    }

    /**
     * `createOrUpdate`. `createError` is the message of the `WP_Error`
     * `wp_create_user` would return, if any; `insertOk` whether the event
     * row is inserted. On every path the new state is the one `Decide`
     * chose: a failed minimum check writes only a validation_error event,
     * the three `createUser` rejections change nothing, an update rewrites
     * the user, its meta and adds a user_updated event, and a creation adds
     * the user under the next id, its meta and a registered event.
     */
    method CreateOrUpdate(dto: RegistrationDto.Dto, createError: Option<string>,
                          sanitize: string -> string, now: string, insertOk: bool) returns (r: ServiceResult)
      requires Valid()
      modifies this, events
      ensures Valid()
      ensures r == Answer(Decide(dto, old(users), createError), old(users), old(nextUserId))
      ensures users == ServiceUsers(Decide(dto, old(users), createError), dto, old(users), old(nextUserId))
      ensures nextUserId == old(nextUserId) + if Decide(dto, old(users), createError) == Create then 1 else 0
      ensures meta == ServiceMeta(Decide(dto, old(users), createError), dto, old(users), old(nextUserId), old(meta))
      ensures var rows := ServiceRows(Decide(dto, old(users), createError), dto, old(users), old(nextUserId), old(events.nextId),
                                      sanitize, now, insertOk);
        events.rows == old(events.rows) + rows && events.nextId == old(events.nextId) + |rows|
    {
      var validation := RegistrationDto.GetMinimumRequiredFields(dto);
      if !validation.valid {
        var _ := events.RecordValidationError(OrUnknown(RegistrationDto.Prop(dto, "perfilUsuario")),
                                              OrUnknown(RegistrationDto.Prop(dto, "estado")),
                                              ListValue(validation.missing), sanitize, now, insertOk);
        return ServiceResult(false, None, MissingFieldsMessage + Join(validation.missing, ", "));
      }
      var existing := FindByLogin(users, LoginOf(dto));
      if existing.None? && !EmptyValue(RegistrationDto.Prop(dto, "email")) {
        existing := FindByEmail(users, StringCast(RegistrationDto.Prop(dto, "email")));
      }
      if existing.Some? {
        r := UpdateUser(existing.value, dto, sanitize, now, insertOk);
      } else {
        r := CreateUser(dto, createError, sanitize, now, insertOk);
      }
    }

    /** Users, meta and events as they were. */
    predicate Unchanged(users0: seq<User>, meta0: Meta, nextUserId0: nat, rows0: seq<Events.EventRow>)
      reads this, events
    {
      users == users0 && meta == meta0 && nextUserId == nextUserId0 && events.rows == rows0
    }

    /** `createUser`. */
    method CreateUser(dto: RegistrationDto.Dto, createError: Option<string>,
                      sanitize: string -> string, now: string, insertOk: bool) returns (r: ServiceResult)
      requires Valid()
      modifies this, events
      ensures Valid()
      ensures r == Answer(CreatePath(dto, old(users), createError), old(users), old(nextUserId))
      ensures users == ServiceUsers(CreatePath(dto, old(users), createError), dto, old(users), old(nextUserId))
      ensures nextUserId == old(nextUserId) + if CreatePath(dto, old(users), createError) == Create then 1 else 0
      ensures meta == ServiceMeta(CreatePath(dto, old(users), createError), dto, old(users), old(nextUserId), old(meta))
      ensures var rows := ServiceRows(CreatePath(dto, old(users), createError), dto, old(users), old(nextUserId), old(events.nextId),
                                      sanitize, now, insertOk);
        events.rows == old(events.rows) + rows && events.nextId == old(events.nextId) + |rows|
    {
      ghost var path := CreatePath(dto, users, createError);
      if FindByLogin(users, LoginOf(dto)).Some? {
        assert path == LoginTaken;
        return ServiceResult(false, None, LoginTakenMessage);
      }
      var senha := RegistrationDto.Prop(dto, "senhaLogin");
      if EmptyValue(senha) || |StringCast(senha)| < MinPasswordLength {
        assert path == ShortPassword;
        return ServiceResult(false, None, ShortPasswordMessage);
      }
      if createError.Some? {
        assert path == CreateRejected(createError.value);
        return ServiceResult(false, None, createError.value);
      }
      assert path == Create;
      r := AddUser(dto, sanitize, now, insertOk);
    }

    /** `createUser` once its guards have passed: the user, its meta and the registered event. */
    method AddUser(dto: RegistrationDto.Dto, sanitize: string -> string, now: string, insertOk: bool)
      returns (r: ServiceResult)
      requires Valid()
      modifies this, events
      ensures Valid()
      ensures r == ServiceResult(true, Some(old(nextUserId)), CreatedMessage)
      ensures users == old(users) + [NewUser(old(nextUserId), dto)] && nextUserId == old(nextUserId) + 1
      ensures meta == MetaAfter(old(meta), old(nextUserId), RegistrationDto.ArrayOf(dto))
      ensures events.rows == old(events.rows) + if insertOk then [Events.NewRow(old(events.nextId), old(nextUserId), "registered",
                OrUnknown(RegistrationDto.Prop(dto, "perfilUsuario")), OrUnknown(RegistrationDto.Prop(dto, "estado")),
                ActionMetadata("user_created"), sanitize, now)] else []
      ensures events.nextId == old(events.nextId) + if insertOk then 1 else 0
    {
      var userId := nextUserId;
      users := users + [NewUser(userId, dto)];
      nextUserId := nextUserId + 1;
      StoreUserMeta(userId, dto);
      var _ := events.RecordRegistration(userId, OrUnknown(RegistrationDto.Prop(dto, "perfilUsuario")),
                                         OrUnknown(RegistrationDto.Prop(dto, "estado")),
                                         ActionMetadata("user_created"), sanitize, now, insertOk);
      r := ServiceResult(true, Some(userId), CreatedMessage);
    }

    /** `updateUser` on the user at position `i`. */
    method UpdateUser(i: nat, dto: RegistrationDto.Dto, sanitize: string -> string, now: string, insertOk: bool)
      returns (r: ServiceResult)
      requires Valid() && i < |users|
      modifies this, events
      ensures Valid()
      ensures r == ServiceResult(true, Some(old(users)[i].id), UpdatedMessage)
      ensures users == old(users)[i := UpdatedUser(old(users)[i], dto)] && nextUserId == old(nextUserId)
      ensures meta == MetaAfter(old(meta), old(users)[i].id, RegistrationDto.ArrayOf(dto))
      ensures events.rows == old(events.rows) + if insertOk then [Events.NewRow(old(events.nextId), old(users)[i].id, "user_updated",
                OrUnknown(RegistrationDto.Prop(dto, "perfilUsuario")), OrUnknown(RegistrationDto.Prop(dto, "estado")),
                ActionMetadata("user_updated"), sanitize, now)] else []
      ensures events.nextId == old(events.nextId) + if insertOk then 1 else 0
    {
      var userId := users[i].id;
      users := users[i := UpdatedUser(users[i], dto)];
      StoreUserMeta(userId, dto);
      var _ := events.RecordUpdate(userId, OrUnknown(RegistrationDto.Prop(dto, "perfilUsuario")),
                                   OrUnknown(RegistrationDto.Prop(dto, "estado")),
                                   ActionMetadata("user_updated"), sanitize, now, insertOk);
      r := ServiceResult(true, Some(userId), UpdatedMessage);
    }
  }
}
