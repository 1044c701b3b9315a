/**
 * The registration data transfer object: the 20 standard properties in
 * camelCase plus the profile-specific fields, built from the snake_case
 * request array and turned back into one.
 *
 * The object is a value here: its only writer is the static factory
 * `fromArray`, which fills a fresh instance.  A property that was never
 * assigned reads as null, as in PHP.
 */
module RegistrationDto {
  import opened Php

  /** The (snake_case key, camelCase property) pairs, in declaration order. */
  const Mapping: seq<(string, string)> := [
    ("nome_completo", "nomeCompleto"),
    ("cpf", "cpf"),
    ("email", "email"),
    ("email_login", "emailLogin"),
    ("senha_login", "senhaLogin"),
    ("telefone", "telefone"),
    ("data_nascimento", "dataNascimento"),
    ("genero", "genero"),
    ("raca_cor", "racaCor"),
    ("perfil_usuario", "perfilUsuario"),
    ("vinculo_institucional", "vinculoInstitucional"),
    ("estado", "estado"),
    ("municipio", "municipio"),
    ("logradouro", "logradouro"),
    ("cep", "cep"),
    ("complemento", "complemento"),
    ("numero", "numero"),
    ("bairro", "bairro"),
    ("acessibilidade", "acessibilidade"),
    ("descricao_acessibilidade", "descricaoAcessibilidade")
  ]

  datatype Dto = Dto(props: map<string, Value>, profileSpecificFields: Entries)

  /** `$dto->$camel`: null when never assigned. */
  function Prop(d: Dto, camel: string): Value
  {
    if camel in d.props then d.props[camel] else Null
  }

  /** A request key that is not one of the 20 standard keys. */
  predicate Unmapped(key: string)
  {
    forall i :: 0 <= i < |Mapping| ==> Mapping[i].0 != key
  }

  /** The keys the second loop of `fromArray` keeps as profile-specific. */
  predicate KeptEntry(key: string, value: Value)
  {
    Unmapped(key) && key != "fpse_nonce"
  }

  predicate NonNullEntry(key: string, value: Value)
  {
    value != Null
  }

  lemma MappingDistinct()
    ensures forall i, j :: 0 <= i < j < |Mapping| ==> Mapping[i].0 != Mapping[j].0 && Mapping[i].1 != Mapping[j].1
  {
  }

  // ---------------------------------------------------------------------
  // fromArray
  // ---------------------------------------------------------------------

  /** The properties the first loop of `fromArray` assigns after the pairs `m`. */
  function StandardProps(data: Entries, m: seq<(string, string)>): map<string, Value>
  {
    if m == [] then map[]
    else
      var p := StandardProps(data, m[..|m| - 1]);
      var pair := m[|m| - 1];
      if Isset(data, pair.0) then p[pair.1 := Get(data, pair.0)] else p
  }

  /** What `fromArray` builds. */
  function DtoOf(data: Entries): Dto
  {
    Dto(StandardProps(data, Mapping), KeepIf(data, KeptEntry))
  }

  lemma {:induction false} StandardPropsAt(data: Entries, m: seq<(string, string)>, camel: string)
    requires forall i, j :: 0 <= i < j < |m| ==> m[i].1 != m[j].1
    ensures (forall i :: 0 <= i < |m| ==> m[i].1 != camel) ==> camel !in StandardProps(data, m)
    ensures forall i :: 0 <= i < |m| && m[i].1 == camel ==>
      (if Isset(data, m[i].0) then camel in StandardProps(data, m) && StandardProps(data, m)[camel] == Get(data, m[i].0)
       else camel !in StandardProps(data, m))
  {
    if m != [] {
      var init := m[..|m| - 1];
      StandardPropsAt(data, init, camel);
      assert forall i :: 0 <= i < |init| ==> init[i] == m[i];
    }
  }

  /** `fromArray`: copy the set standard keys, keep every other key except the nonce. */
  method FromArray(data: Entries) returns (dto: Dto)
    requires DistinctKeys(data)
    ensures dto == DtoOf(data)
  {
    var props := CopyStandard(data, Mapping);
    var specific := KeepSpecific(data);
    dto := Dto(props, specific);
  }

  /** The first loop of `fromArray`, over the property mapping `m`: each set snake_case key copied to its property. */
  method CopyStandard(data: Entries, m: seq<(string, string)>) returns (props: map<string, Value>)
    ensures props == StandardProps(data, m)
  {
    props := map[];
    var i := 0;
    while i < |m|
      invariant 0 <= i <= |m|
      invariant props == StandardProps(data, m[..i])
    {
      assert m[..i + 1][..i] == m[..i];
      var pair := m[i];
      if Isset(data, pair.0) {
        props := props[pair.1 := Get(data, pair.0)];
      }
      i := i + 1;
    }
    assert m[..|m|] == m;
  }

  /** The second loop of `fromArray`: every unmapped key other than the nonce, in request order. */
  method KeepSpecific(data: Entries) returns (specific: Entries)
    requires DistinctKeys(data)
    ensures specific == KeepIf(data, KeptEntry)
  {
    specific := [];
    var i := 0;
    while i < |data|
      invariant 0 <= i <= |data|
      invariant specific == KeepIf(data[..i], KeptEntry)
    {
      assert data[..i + 1][..i] == data[..i];
      var key := data[i].0;
      var value := data[i].1;
      if Unmapped(key) && key != "fpse_nonce" {
        forall j | 0 <= j < |specific|
          ensures specific[j].0 != key
        {
          assert specific[j] in data[..i];
          var m :| 0 <= m < i && data[m] == specific[j];
        }
        KeyAbsent(specific, key);
        PutFresh(specific, key, value);
        specific := Put(specific, key, value);
      }
      i := i + 1;
    }
    assert data[..|data|] == data;
  }

  /**
   * Each standard property holds the request value of its snake_case key
   * when that value is set, and stays null otherwise; the profile-specific
   * fields are exactly the unmapped entries other than `fpse_nonce`,
   * unchanged and in request order.
   */
  lemma FromArrayFields(data: Entries, k: nat)
    requires k < |Mapping|
    ensures Prop(DtoOf(data), Mapping[k].1) == if Isset(data, Mapping[k].0) then Get(data, Mapping[k].0) else Null
    ensures forall e :: e in DtoOf(data).profileSpecificFields <==> e in data && Unmapped(e.0) && e.0 != "fpse_nonce"
    ensures forall camel :: (forall i :: 0 <= i < |Mapping| ==> Mapping[i].1 != camel) ==> Prop(DtoOf(data), camel) == Null
  {
    MappingDistinct();
    StandardPropsAt(data, Mapping, Mapping[k].1);
    forall camel | forall i :: 0 <= i < |Mapping| ==> Mapping[i].1 != camel
      ensures Prop(DtoOf(data), camel) == Null
    {
      StandardPropsAt(data, Mapping, camel);
    }
  }

  // ---------------------------------------------------------------------
  // toArray
  // ---------------------------------------------------------------------

  /** The (snake_case key, value) pairs of the non-null standard properties among `m`. */
  function StandardEntries(d: Dto, m: seq<(string, string)>): Entries
  {
    if m == [] then []
    else
      var init := StandardEntries(d, m[..|m| - 1]);
      var pair := m[|m| - 1];
      if Prop(d, pair.1) != Null then init + [(pair.0, Prop(d, pair.1))] else init
  }

  lemma {:induction false} StandardEntriesMembers(d: Dto, m: seq<(string, string)>)
    ensures forall e :: e in StandardEntries(d, m) <==>
      exists i :: 0 <= i < |m| && m[i].0 == e.0 && Prop(d, m[i].1) == e.1 && e.1 != Null
  {
    if m != [] {
      StandardEntriesMembers(d, m[..|m| - 1]);
      assert forall i :: 0 <= i < |m| - 1 ==> m[..|m| - 1][i] == m[i];
    }
  }

  /** What `toArray` returns. */
  function ArrayOf(d: Dto): Entries
  {
    PutAll(PutAll([], StandardEntries(d, Mapping)), KeepIf(d.profileSpecificFields, NonNullEntry))
  }

  /** `toArray`: the non-null standard properties under their snake_case keys, then the non-null profile fields. */
  method ToArray(d: Dto) returns (result: Entries)
    ensures result == ArrayOf(d)
  {
    var standard := StandardArray(d, Mapping);
    result := AddProfileFields(standard, d.profileSpecificFields);
  }

  /** The first loop of `toArray`, over the property mapping `m`: each mapped property that is not null, under its snake_case key. */
  method StandardArray(d: Dto, m: seq<(string, string)>) returns (result: Entries)
    ensures result == PutAll([], StandardEntries(d, m))
  {
    result := [];
    var i := 0;
    while i < |m|
      invariant 0 <= i <= |m|
      invariant result == PutAll([], StandardEntries(d, m[..i]))
    {
      var pair := m[i];
      StandardStep(d, m, i);
      if Prop(d, pair.1) != Null {
        result := Put(result, pair.0, Prop(d, pair.1));
      }
      i := i + 1;
    }
    assert m[..|m|] == m;
  }

  /** One more mapped property: written when it is not null. */
  lemma StandardStep(d: Dto, m: seq<(string, string)>, i: nat)
    requires i < |m|
    ensures PutAll([], StandardEntries(d, m[..i + 1]))
      == if Prop(d, m[i].1) != Null then Put(PutAll([], StandardEntries(d, m[..i])), m[i].0, Prop(d, m[i].1))
         else PutAll([], StandardEntries(d, m[..i]))
  {
    assert m[..i + 1][..i] == m[..i];
    if Prop(d, m[i].1) != Null {
      PutAllSnoc([], StandardEntries(d, m[..i]), m[i].0, Prop(d, m[i].1));
    }
  }

  /** The second loop of `toArray`: each profile field that is not null, written over `standard`. */
  method AddProfileFields(standard: Entries, fields: Entries) returns (result: Entries)
    ensures result == PutAll(standard, KeepIf(fields, NonNullEntry))
  {
    result := standard;
    var i := 0;
    while i < |fields|
      invariant 0 <= i <= |fields|
      invariant result == PutNonNull(standard, fields[..i])
    {
      assert fields[..i + 1][..i] == fields[..i];
      var key := fields[i].0;
      var value := fields[i].1;
      if value != Null {
        result := Put(result, key, value);
      }
      i := i + 1;
    }
    assert fields[..|fields|] == fields;
    PutNonNullKeepIf(standard, fields);
  }

  /** The entries written one by one over `t`, skipping null values. */
  function PutNonNull(t: Entries, es: Entries): Entries
  {
    if es == [] then t
    else
      var init := PutNonNull(t, es[..|es| - 1]);
      var last := es[|es| - 1];
      if last.1 != Null then Put(init, last.0, last.1) else init
  }

  /** Skipping the null values while writing is writing the non-null entries. */
  lemma {:induction false} PutNonNullKeepIf(t: Entries, es: Entries)
    ensures PutNonNull(t, es) == PutAll(t, KeepIf(es, NonNullEntry))
  {
    if es != [] {
      var init, last := es[..|es| - 1], es[|es| - 1];
      PutNonNullKeepIf(t, init);
      if last.1 != Null {
        PutAllSnoc(t, KeepIf(init, NonNullEntry), last.0, last.1);
      }
    }
  }

  lemma StandardEntriesOfDto(data: Entries)
    ensures DistinctKeys(StandardEntries(DtoOf(data), Mapping))
    ensures forall s, v :: (s, v) in StandardEntries(DtoOf(data), Mapping) <==>
      !Unmapped(s) && v == Get(data, s) && v != Null
  {
    var d := DtoOf(data);
    var a := StandardEntries(d, Mapping);
    MappingDistinct();
    StandardEntriesMembers(d, Mapping);
    forall s, v
      ensures (s, v) in a <==> !Unmapped(s) && v == Get(data, s) && v != Null
    {
      if !Unmapped(s) {
        var i :| 0 <= i < |Mapping| && Mapping[i].0 == s;
        FromArrayFields(data, i);
      }
    }
    StandardEntriesDistinct(d, Mapping);
  }

  lemma {:induction false} StandardEntriesDistinct(d: Dto, m: seq<(string, string)>)
    requires forall i, j :: 0 <= i < j < |m| ==> m[i].0 != m[j].0
    ensures DistinctKeys(StandardEntries(d, m))
  {
    if m != [] {
      var init := m[..|m| - 1];
      StandardEntriesDistinct(d, init);
      StandardEntriesMembers(d, init);
      var r := StandardEntries(d, init);
      forall e | e in r
        ensures e.0 != m[|m| - 1].0
      {
        var i :| 0 <= i < |init| && init[i].0 == e.0 && Prop(d, init[i].1) == e.1 && e.1 != Null;
        assert init[i] == m[i];
      }
      forall j | 0 <= j < |r|
        ensures r[j].0 != m[|m| - 1].0
      {
        assert r[j] in r;
      }
    }
  }

  /**
   * Round trip: reading any key back from `toArray(fromArray(data))`
   * gives the request value, except that null values and `fpse_nonce`
   * disappear.
   */
  lemma RoundTrip(data: Entries, k: string)
    requires DistinctKeys(data)
    ensures Lookup(ArrayOf(DtoOf(data)), k) == if k == "fpse_nonce" || Get(data, k) == Null then None else Lookup(data, k)
  {
    ArrayOfDtoSplits(data);
    LookupAppend(StandardEntries(DtoOf(data), Mapping), KeepIf(DtoOf(data).profileSpecificFields, NonNullEntry), k);
    if Unmapped(k) {
      RoundTripUnmapped(data, k);
    } else {
      RoundTripMapped(data, k);
    }
  }

  lemma RoundTripUnmapped(data: Entries, k: string)
    requires DistinctKeys(data) && Unmapped(k)
    ensures Lookup(StandardEntries(DtoOf(data), Mapping), k) == None
    ensures Lookup(KeepIf(DtoOf(data).profileSpecificFields, NonNullEntry), k)
      == if k == "fpse_nonce" || Get(data, k) == Null then None else Lookup(data, k)
  {
    UnmappedNotStandard(data, k);
    LookupKeepIf(data, KeptEntry, k);
    KeepIfDistinct(data, KeptEntry);
    LookupKeepIf(DtoOf(data).profileSpecificFields, NonNullEntry, k);
  }

  lemma RoundTripMapped(data: Entries, k: string)
    requires DistinctKeys(data) && !Unmapped(k)
    ensures Lookup(StandardEntries(DtoOf(data), Mapping), k) == if Get(data, k) == Null then None else Lookup(data, k)
    ensures Lookup(KeepIf(DtoOf(data).profileSpecificFields, NonNullEntry), k) == None
    ensures k != "fpse_nonce"
  {
    var a := StandardEntries(DtoOf(data), Mapping);
    ArrayOfDtoSplits(data);
    MappedNotSpecific(data, k);
    NonceUnmapped();
    var v := Get(data, k);
    if v != Null {
      assert (k, v) in a;
      LookupDistinct(a, k, v);
    }
  }

  lemma NonceUnmapped()
    ensures Unmapped("fpse_nonce")
  {
  }

  /** `toArray` of a DTO built by `fromArray` is the standard entries followed by the kept non-null entries. */
  lemma ArrayOfDtoSplits(data: Entries)
    requires DistinctKeys(data)
    ensures ArrayOf(DtoOf(data)) == StandardEntries(DtoOf(data), Mapping) + KeepIf(DtoOf(data).profileSpecificFields, NonNullEntry)
    ensures DistinctKeys(StandardEntries(DtoOf(data), Mapping))
    ensures forall s, v :: (s, v) in StandardEntries(DtoOf(data), Mapping) <==>
      !Unmapped(s) && v == Get(data, s) && v != Null
  {
    var d := DtoOf(data);
    var a := StandardEntries(d, Mapping);
    var s := KeepIf(d.profileSpecificFields, NonNullEntry);
    StandardEntriesOfDto(data);
    KeepIfDistinct(data, KeptEntry);
    KeepIfDistinct(d.profileSpecificFields, NonNullEntry);
    PutAllFresh([], a);
    assert [] + a == a;
    forall i | 0 <= i < |s|
      ensures s[i].0 !in Keys(a)
    {
      assert s[i] in s;
      forall j | 0 <= j < |a|
        ensures a[j].0 != s[i].0
      {
        assert a[j] in a;
      }
      KeyAbsent(a, s[i].0);
    }
    PutAllFresh(a, s);
  }

  lemma UnmappedNotStandard(data: Entries, k: string)
    requires Unmapped(k)
    ensures Lookup(StandardEntries(DtoOf(data), Mapping), k) == None
  {
    var a := StandardEntries(DtoOf(data), Mapping);
    StandardEntriesOfDto(data);
    forall j | 0 <= j < |a|
      ensures a[j].0 != k
    {
      assert a[j] in a;
    }
    KeyAbsent(a, k);
  }

  lemma MappedNotSpecific(data: Entries, k: string)
    requires !Unmapped(k)
    ensures Lookup(KeepIf(DtoOf(data).profileSpecificFields, NonNullEntry), k) == None
  {
    var s := KeepIf(DtoOf(data).profileSpecificFields, NonNullEntry);
    forall j | 0 <= j < |s|
      ensures s[j].0 != k
    {
      assert s[j] in s;
    }
    KeyAbsent(s, k);
  }

  // ---------------------------------------------------------------------
  // getMinimumRequiredFields
  // ---------------------------------------------------------------------

  /** The (property, reported field name) pairs checked, in order. */
  const MinimumFields: seq<(string, string)> := [
    ("emailLogin", "email_login"),
    ("perfilUsuario", "perfil_usuario"),
    ("estado", "estado"),
    ("municipio", "municipio"),
    ("nomeCompleto", "nome_completo")
  ]

  datatype MinimumCheck = MinimumCheck(valid: bool, missing: seq<string>)

  /** The field names among `fs` whose property is PHP-empty, in order. */
  function EmptyAmong(d: Dto, fs: seq<(string, string)>): (r: seq<string>)
    ensures forall f :: f in r <==> exists i :: 0 <= i < |fs| && fs[i].1 == f && EmptyValue(Prop(d, fs[i].0))
  {
    if fs == [] then []
    else
      var rest := EmptyAmong(d, fs[1..]);
      assert forall i :: 1 <= i < |fs| ==> fs[1..][i - 1] == fs[i];
      if EmptyValue(Prop(d, fs[0].0)) then [fs[0].1] + rest else rest
  }

  lemma {:induction false} EmptyAmongInOrder(d: Dto, fs: seq<(string, string)>)
    ensures IsSubsequence(EmptyAmong(d, fs), seq(|fs|, i requires 0 <= i < |fs| => fs[i].1))
  {
    if fs != [] {
      EmptyAmongInOrder(d, fs[1..]);
      var names := seq(|fs|, i requires 0 <= i < |fs| => fs[i].1);
      assert names[1..] == seq(|fs[1..]|, i requires 0 <= i < |fs[1..]| => fs[1..][i].1);
      assert names == [names[0]] + names[1..];
      if !EmptyValue(Prop(d, fs[0].0)) {
        SubsequenceSkip(EmptyAmong(d, fs[1..]), names[1..], names[0]);
      }
    }
  }

  /** `getMinimumRequiredFields`: the minimum fields whose property is PHP-empty; valid iff there are none. */
  method GetMinimumRequiredFields(d: Dto) returns (r: MinimumCheck)
    ensures r.missing == EmptyAmong(d, MinimumFields)
    ensures r.valid <==> r.missing == []
  {
    var missing: seq<string> := [];
    var i := 0;
    while i < |MinimumFields|
      invariant 0 <= i <= |MinimumFields|
      invariant missing + EmptyAmong(d, MinimumFields[i..]) == EmptyAmong(d, MinimumFields)
    {
      assert MinimumFields[i..][1..] == MinimumFields[i + 1..];
      if EmptyValue(Prop(d, MinimumFields[i].0)) {
        missing := missing + [MinimumFields[i].1];
      }
      i := i + 1;
    }
    r := MinimumCheck(missing == [], missing);
  }

  /** The minimum check lists, in the fixed order, exactly the five fields whose property is PHP-empty. */
  lemma MinimumFieldsExact(d: Dto)
    ensures IsSubsequence(EmptyAmong(d, MinimumFields), ["email_login", "perfil_usuario", "estado", "municipio", "nome_completo"])
    ensures "email_login" in EmptyAmong(d, MinimumFields) <==> EmptyValue(Prop(d, "emailLogin"))
    ensures "perfil_usuario" in EmptyAmong(d, MinimumFields) <==> EmptyValue(Prop(d, "perfilUsuario"))
    ensures "estado" in EmptyAmong(d, MinimumFields) <==> EmptyValue(Prop(d, "estado"))
    ensures "municipio" in EmptyAmong(d, MinimumFields) <==> EmptyValue(Prop(d, "municipio"))
    ensures "nome_completo" in EmptyAmong(d, MinimumFields) <==> EmptyValue(Prop(d, "nomeCompleto"))
  {
    EmptyAmongInOrder(d, MinimumFields);
    assert MinimumFields[2].1 == "estado" && MinimumFields[3].1 == "municipio" && MinimumFields[4].1 == "nome_completo";
    assert seq(|MinimumFields|, i requires 0 <= i < |MinimumFields| => MinimumFields[i].1)
      == ["email_login", "perfil_usuario", "estado", "municipio", "nome_completo"];
  }
}
