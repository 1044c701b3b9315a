/**
 * Profile lookups and profile-specific field validation driven by the
 * profiles configuration (an ordered array keyed by profile identifier).
 * `sanitize_text_field` is a parameter.
 */
module ProfileResolver {
  import opened Php
  import PerfilCamposContract

  /** A configured profile; each key may be absent or null. */
  datatype Profile = Profile(displayLabel: Option<string>, category: Option<string>, description: Option<string>,
                             specificFields: Option<seq<string>>)

  type Profiles = seq<(string, Profile)>

  function Configured(displayLabel: string, category: string, description: string, fields: seq<string>): Profile
  {
    Profile(Some(displayLabel), Some(category), Some(description), Some(fields))
  }

  /** The shipped profiles configuration, in file order. */
  const ConfiguredProfiles: Profiles := [
    ("estudante-eaa", Configured("Estudante - EAA", "EAA", "Estudante da Educação de Adolescentes e Adultos", ["rede_escola", "escola_nome", "funcao_eaa"])),
    ("profissional-saude-eaa", Configured("Profissional Saúde - EAA", "EAA", "Profissional de Saúde da Educação de Adolescentes e Adultos", ["rede_escola", "escola_nome"])),
    ("profissional-educacao-eaa", Configured("Profissional Educação - EAA", "EAA", "Profissional de Educação da Educação de Adolescentes e Adultos", ["rede_escola", "escola_nome"])),
    ("professor-eaa", Configured("Professor - EAA", "EAA", "Professor da Educação de Adolescentes e Adultos", ["rede_escola", "escola_nome", "matricula"])),
    ("gestor-eaa", Configured("Gestor - EAA", "EAA", "Gestor da Educação de Adolescentes e Adultos", ["rede_escola", "escola_nome", "matricula", "funcao_administrativa"])),
    ("estudante-ies", Configured("Estudante - IES", "IES", "Estudante de Instituição de Ensino Superior", ["instituicao_nome", "curso_nome", "matricula"])),
    ("bolsista-ies", Configured("Bolsista - IES", "IES", "Bolsista de Instituição de Ensino Superior", ["instituicao_nome"])),
    ("voluntario-ies", Configured("Voluntário - IES", "IES", "Voluntário de Instituição de Ensino Superior", ["instituicao_nome"])),
    ("coordenador-ies", Configured("Coordenador - IES", "IES", "Coordenador de Instituição de Ensino Superior", ["instituicao_nome", "departamento"])),
    ("professor-ies", Configured("Professor - IES", "IES", "Professor de Instituição de Ensino Superior", ["instituicao_nome", "departamento", "matricula"])),
    ("pesquisador", Configured("Pesquisador", "IES", "Pesquisador vinculado a Instituição de Ensino Superior", ["instituicao_nome", "area_pesquisa", "projeto_nome"])),
    ("jovem-mobilizador-nap", Configured("Jovem Mobilizador - NAP", "NAP", "Jovem Mobilizador do Núcleo de Acessibilidade Pedagógica", ["nap_nome"])),
    ("apoiador-pedagogico-nap", Configured("Apoiador Pedagógico - NAP", "NAP", "Apoiador Pedagógico do Núcleo de Acessibilidade Pedagógica", ["nap_nome"])),
    ("coordenacao-nap", Configured("Coordenação - NAP", "NAP", "Coordenação do Núcleo de Acessibilidade Pedagógica", ["nap_nome", "funcao_administrativa"])),
    ("gestor-nap", Configured("Gestor - NAP", "NAP", "Gestor do Núcleo de Acessibilidade Pedagógica", ["nap_nome", "rede_escola", "funcao_administrativa"])),
    ("assistente-nap", Configured("Assistente - NAP", "NAP", "Assistente do Núcleo de Acessibilidade Pedagógica", ["nap_nome", "especialidade", "matricula"])),
    ("gti-m", Configured("GTI-M", "GTI", "Gestão Tecnológica Inclusiva - Municipal", ["setor_gti", "sistema_responsavel"])),
    ("gti-e", Configured("GTI-E", "GTI", "Gestão Tecnológica Inclusiva - Estadual", ["setor_gti", "sistema_responsavel"])),
    ("gestor-gti", Configured("Gestor - GTI", "GTI", "Gestor de Gestão Tecnológica Inclusiva", ["setor_gti", "sistema_responsavel", "matricula"])),
    ("tecnico-gti", Configured("Técnico - GTI", "GTI", "Técnico de Gestão Tecnológica Inclusiva", ["setor_gti", "especialidade", "matricula"])),
    ("coordenacao-fortalece-pse", Configured("Coordenação Fortalece PSE", "Governance", "Coordenação do programa Fortalece PSE", ["regiao_responsavel"])),
    ("representante-ms-mec", Configured("Representante MS/MEC", "Governance", "Representante do Ministério da Saúde e Educação", ["departamento"])),
    ("coordenador-institucional", Configured("Coordenador Institucional", "Governance", "Coordenador Institucional do Fortalece PSE", ["instituicao_nome", "funcao_administrativa", "matricula"])),
    ("monitor-programa", Configured("Monitor do Programa", "Governance", "Monitor responsável pelo programa Fortalece PSE", ["regiao_responsavel", "matricula"]))
  ]

  // ---------------------------------------------------------------------
  // Lookups
  // ---------------------------------------------------------------------

  /** `getProfile`: the configured profile under the sanitised identifier. */
  function GetProfile(profiles: Profiles, sanitize: string -> string, id: string): (r: Option<Profile>)
    ensures r.Some? <==> sanitize(id) in Keys(profiles)
    ensures r.Some? ==> (sanitize(id), r.value) in profiles
  {
    Lookup(profiles, sanitize(id))
  }

  /** `isValidProfile`: the configuration has the sanitised identifier as a key. */
  function IsValidProfile(profiles: Profiles, sanitize: string -> string, id: string): (b: bool)
    ensures b <==> sanitize(id) in Keys(profiles)
  {
    GetProfile(profiles, sanitize, id).Some?
  }

  function TextOr(o: Option<string>, default: string): string
  {
    match o
    case Some(s) => s
    case None => default
  }

  /** `getProfileLabel`: '' when the profile or its label is missing. */
  function GetProfileLabel(profiles: Profiles, sanitize: string -> string, id: string): (r: string)
    ensures !IsValidProfile(profiles, sanitize, id) ==> r == ""
  {
    match GetProfile(profiles, sanitize, id)
    case Some(p) => TextOr(p.displayLabel, "")
    case None => ""
  }

  /** `getProfileCategory`: '' when the profile or its category is missing. */
  function GetProfileCategory(profiles: Profiles, sanitize: string -> string, id: string): (r: string)
    ensures !IsValidProfile(profiles, sanitize, id) ==> r == ""
  {
    match GetProfile(profiles, sanitize, id)
    case Some(p) => TextOr(p.category, "")
    case None => ""
  }

  /** `getProfileDescription`: '' when the profile or its description is missing. */
  function GetProfileDescription(profiles: Profiles, sanitize: string -> string, id: string): (r: string)
    ensures !IsValidProfile(profiles, sanitize, id) ==> r == ""
  {
    match GetProfile(profiles, sanitize, id)
    case Some(p) => TextOr(p.description, "")
    case None => ""
  }

  /** `getProfileSpecificFields`: [] when the profile or its list is missing. */
  function GetProfileSpecificFields(profiles: Profiles, sanitize: string -> string, id: string): (r: seq<string>)
    ensures !IsValidProfile(profiles, sanitize, id) ==> r == []
  {
    match GetProfile(profiles, sanitize, id)
    case Some(p) => (match p.specificFields case Some(fs) => fs case None => [])
    case None => []
  }

  // ---------------------------------------------------------------------
  // Profile-specific field validation
  // ---------------------------------------------------------------------

  /** `!isset($data[$f]) || (is_string($data[$f]) && trim($data[$f]) === '')`. */
  predicate Unfilled(data: Entries, f: string)
  {
    !Isset(data, f) || (Get(data, f).Str? && IsBlankString(Get(data, f).s))
  }

  /** The required fields, in order, that are unfilled in `data`. */
  function UnfilledAmong(required: seq<string>, data: Entries): seq<string>
  {
    if required == [] then []
    else if Unfilled(data, required[0]) then [required[0]] + UnfilledAmong(required[1..], data)
    else UnfilledAmong(required[1..], data)
  }

  /** The unfilled list holds exactly the unfilled required fields, in their order. */
  lemma {:induction false} UnfilledAmongExact(required: seq<string>, data: Entries)
    ensures forall f :: f in UnfilledAmong(required, data) <==> f in required && Unfilled(data, f)
    ensures IsSubsequence(UnfilledAmong(required, data), required)
  {
    if required != [] {
      var rest := UnfilledAmong(required[1..], data);
      UnfilledAmongExact(required[1..], data);
      assert required == [required[0]] + required[1..];
      assert forall f :: f in required <==> f == required[0] || f in required[1..];
      if Unfilled(data, required[0]) {
        assert ([required[0]] + rest)[1..] == rest;
      } else {
        SubsequenceSkip(rest, required[1..], required[0]);
      }
    }
  }

  lemma SameMissingValue(data: Entries, f: string)
    ensures Unfilled(data, f) <==> PerfilCamposContract.IsMissingValue(Get(data, f))
  {
    var v := Get(data, f);
    assert v == Str("") ==> Trim(v.s) == "";
  }

  /** The resolver and the per-step contract treat exactly the same values as missing. */
  lemma {:induction false} SameMissingRuleAsContract(required: seq<string>, data: Entries)
    ensures UnfilledAmong(required, data) == PerfilCamposContract.MissingIn(required, data)
  {
    if required != [] {
      SameMissingRuleAsContract(required[1..], data);
      SameMissingValue(data, required[0]);
    }
  }

  datatype FieldCheck = FieldCheck(valid: bool, missing: seq<string>, required: seq<string>)

  /** What `validateProfileSpecificFields` returns. */
  function SpecificFieldCheck(profiles: Profiles, sanitize: string -> string, id: string, data: Entries): FieldCheck
  {
    var required := GetProfileSpecificFields(profiles, sanitize, id);
    var missing := UnfilledAmong(required, data);
    FieldCheck(missing == [], missing, required)
  }

  /** `validateProfileSpecificFields`: every specific field of the profile that is unset, null or blank. */
  method ValidateProfileSpecificFields(profiles: Profiles, sanitize: string -> string, id: string, data: Entries)
    returns (r: FieldCheck)
    ensures r == SpecificFieldCheck(profiles, sanitize, id, data)
  {
    var required := GetProfileSpecificFields(profiles, sanitize, id);
    var missing := UnfilledFields(required, data);
    r := FieldCheck(missing == [], missing, required);
  }

  /** The loop of `validateProfileSpecificFields` over the required fields. */
  method UnfilledFields(required: seq<string>, data: Entries) returns (missing: seq<string>)
    ensures missing == UnfilledAmong(required, data)
  {
    missing := [];
    var i := 0;
    while i < |required|
      invariant 0 <= i <= |required|
      invariant missing + UnfilledAmong(required[i..], data) == UnfilledAmong(required, data)
    {
      var field := required[i];
      UnfilledStep(required, i, data);
      var value := Get(data, field);
      ghost var rest := UnfilledAmong(required[i + 1..], data);
      if value == Null || (value.Str? && Trim(value.s) == "") {
        assert Unfilled(data, field);
        assert (missing + [field]) + rest == missing + ([field] + rest);
        missing := missing + [field];
      } else {
        assert !Unfilled(data, field);
      }
      assert missing + rest == UnfilledAmong(required, data);
      i := i + 1;
    }
  }

  lemma UnfilledStep(required: seq<string>, i: nat, data: Entries)
    requires i < |required|
    ensures Unfilled(data, required[i]) ==>
      UnfilledAmong(required[i..], data) == [required[i]] + UnfilledAmong(required[i + 1..], data)
    ensures !Unfilled(data, required[i]) ==> UnfilledAmong(required[i..], data) == UnfilledAmong(required[i + 1..], data)
  {
    assert required[i..][1..] == required[i + 1..];
  }

  /**
   * The field check reports, in order, exactly the profile's specific
   * fields that are unfilled, and is valid iff all of them are filled.
   */
  lemma SpecificFieldCheckExact(profiles: Profiles, sanitize: string -> string, id: string, data: Entries)
    ensures var c := SpecificFieldCheck(profiles, sanitize, id, data);
      (forall f :: f in c.missing <==> f in c.required && Unfilled(data, f)) && IsSubsequence(c.missing, c.required)
    ensures var c := SpecificFieldCheck(profiles, sanitize, id, data);
      c.valid <==> forall f :: f in GetProfileSpecificFields(profiles, sanitize, id) ==> !Unfilled(data, f)
  {
    var c := SpecificFieldCheck(profiles, sanitize, id, data);
    UnfilledAmongExact(c.required, data);
    if c.missing != [] {
      assert c.missing[0] in c.missing;
    }
  }

  datatype ProfileCheck = ProfileCheck(valid: bool, errors: seq<string>)

  /** What `validateProfile` returns. */
  function ProfileValidation(profiles: Profiles, sanitize: string -> string, id: string, data: Entries): ProfileCheck
  {
    if !IsValidProfile(profiles, sanitize, id) then ProfileCheck(false, ["Perfil '" + id + "' não existe"])
    else
      var fields := SpecificFieldCheck(profiles, sanitize, id, data);
      var errors := if !fields.valid then ["Campos específicos do perfil faltando: " + Join(fields.missing, ", ")] else [];
      ProfileCheck(errors == [], errors)
  }

  /** `validateProfile`: existence first, then the specific-field check. */
  method ValidateProfile(profiles: Profiles, sanitize: string -> string, id: string, data: Entries) returns (r: ProfileCheck)
    ensures r == ProfileValidation(profiles, sanitize, id, data)
  {
    if !IsValidProfile(profiles, sanitize, id) {
      return ProfileCheck(false, ["Perfil '" + id + "' não existe"]);
    }
    var fieldValidation := ValidateProfileSpecificFields(profiles, sanitize, id, data);
    var errors: seq<string> := [];
    if !fieldValidation.valid {
      errors := errors + ["Campos específicos do perfil faltando: " + Join(fieldValidation.missing, ", ")];
    }
    r := ProfileCheck(errors == [], errors);
  }

  /**
   * An unknown profile yields exactly one error and no field check; a
   * known one yields at most one error and is valid iff its specific
   * fields are all filled.
   */
  lemma ProfileValidationOutcome(profiles: Profiles, sanitize: string -> string, id: string, data: Entries)
    ensures var r := ProfileValidation(profiles, sanitize, id, data);
      !IsValidProfile(profiles, sanitize, id) ==> !r.valid && r.errors == ["Perfil '" + id + "' não existe"]
    ensures var r := ProfileValidation(profiles, sanitize, id, data);
      IsValidProfile(profiles, sanitize, id) ==>
        |r.errors| <= 1 && (r.valid <==> SpecificFieldCheck(profiles, sanitize, id, data).valid)
    ensures var r := ProfileValidation(profiles, sanitize, id, data);
      r.valid <==> (IsValidProfile(profiles, sanitize, id)
        && forall f :: f in GetProfileSpecificFields(profiles, sanitize, id) ==> !Unfilled(data, f))
  {
    var fs := GetProfileSpecificFields(profiles, sanitize, id);
    var missing := UnfilledAmong(fs, data);
    UnfilledAmongExact(fs, data);
    if missing != [] {
      assert missing[0] in missing;
    }
  }

  // ---------------------------------------------------------------------
  // Categories and metadata
  // ---------------------------------------------------------------------

  /** `$profile['category'] ?? $default`. */
  function CategoryOr(p: Profile, default: string): string
  {
    TextOr(p.category, default)
  }

  /** The filter of `getProfilesByCategory`: an absent category counts as ''. */
  function InCategory(c: string): (string, Profile) -> bool
  {
    (id: string, p: Profile) => CategoryOr(p, "") == c
  }

  /** `getProfilesByCategory`: the profiles, with their identifiers, whose category is the sanitised `category`. */
  method GetProfilesByCategory(profiles: Profiles, sanitize: string -> string, category: string) returns (result: Profiles)
    requires DistinctKeys(profiles)
    ensures result == KeepIf(profiles, InCategory(sanitize(category)))
    ensures forall e :: e in result <==> e in profiles && CategoryOr(e.1, "") == sanitize(category)
  {
    var c := sanitize(category);
    result := [];
    var i := 0;
    while i < |profiles|
      invariant 0 <= i <= |profiles|
      invariant result == KeepIf(profiles[..i], InCategory(c))
    {
      KeepIfStep(profiles, i, InCategory(c));
      var id := profiles[i].0;
      var profile := profiles[i].1;
      if CategoryOr(profile, "") == c {
        PutFresh(result, id, profile);
        result := Put(result, id, profile);
      }
      i := i + 1;
    }
    assert profiles[..|profiles|] == profiles;
  }

  /** Each profile's category, 'other' when absent, in configuration order. */
  function CategoryList(profiles: Profiles): (r: seq<string>)
    ensures |r| == |profiles|
    ensures forall i :: 0 <= i < |profiles| ==> r[i] == CategoryOr(profiles[i].1, "other")
  {
    seq(|profiles|, i requires 0 <= i < |profiles| => CategoryOr(profiles[i].1, "other"))
  }

  /** `getAllCategories`: each category once, in order of first appearance. */
  method GetAllCategories(profiles: Profiles) returns (categories: seq<string>)
    ensures categories == Unique(CategoryList(profiles))
  {
    categories := [];
    var i := 0;
    while i < |profiles|
      invariant 0 <= i <= |profiles|
      invariant categories == Unique(CategoryList(profiles[..i]))
    {
      var category := CategoryOr(profiles[i].1, "other");
      assert CategoryList(profiles[..i + 1]) == CategoryList(profiles[..i]) + [category];
      if category !in categories {
        categories := categories + [category];
      }
      i := i + 1;
    }
    assert profiles[..|profiles|] == profiles;
  }

  /**
   * The category list has no duplicates, keeps first-occurrence order,
   * and holds every profile's category, with 'other' for a profile that
   * has none.
   */
  lemma AllCategoriesProperties(profiles: Profiles)
    ensures forall i, j :: 0 <= i < j < |Unique(CategoryList(profiles))| ==> Unique(CategoryList(profiles))[i] != Unique(CategoryList(profiles))[j]
    ensures forall i, j :: 0 <= i < j < |Unique(CategoryList(profiles))| ==>
      FirstIndex(CategoryList(profiles), Unique(CategoryList(profiles))[i]) < FirstIndex(CategoryList(profiles), Unique(CategoryList(profiles))[j])
    ensures forall e :: e in profiles ==> CategoryOr(e.1, "other") in Unique(CategoryList(profiles))
    ensures forall e :: e in profiles && e.1.category.None? ==> "other" in Unique(CategoryList(profiles))
  {
    UniqueKeepsFirstOccurrenceOrder(CategoryList(profiles));
    forall e | e in profiles
      ensures CategoryOr(e.1, "other") in CategoryList(profiles)
    {
      var i :| 0 <= i < |profiles| && profiles[i] == e;
      assert CategoryList(profiles)[i] == CategoryOr(e.1, "other");
    }
  }

  /**
   * The two category defaults disagree: a profile without a category is
   * listed by `getAllCategories` as 'other', but `getProfilesByCategory`
   * files it under '' and never under 'other'.
   */
  lemma CategoryDefaultsDisagree(profiles: Profiles, id: string, p: Profile)
    requires (id, p) in profiles && p.category.None?
    ensures "other" in Unique(CategoryList(profiles))
    ensures (id, p) in KeepIf(profiles, InCategory(""))
    ensures (id, p) !in KeepIf(profiles, InCategory("other"))
  {
    AllCategoriesProperties(profiles);
  }

  /** The (field, report metadata) pairs `getProfileFieldMetadata` assigns, in order. */
  function MetadataEntries(fields: seq<string>, reportFields: Entries): (r: Entries)
    ensures forall e :: e in r <==> e.0 in fields && Isset(reportFields, e.0) && e.1 == Get(reportFields, e.0)
  {
    if fields == [] then []
    else
      var f := fields[|fields| - 1];
      var init := MetadataEntries(fields[..|fields| - 1], reportFields);
      assert forall x :: x in fields <==> x in fields[..|fields| - 1] || x == f;
      if Isset(reportFields, f) then init + [(f, Get(reportFields, f))] else init
  }

  /** What `getProfileFieldMetadata` returns. */
  function FieldMetadata(profiles: Profiles, sanitize: string -> string, id: string, reportFields: Entries): Entries
  {
    PutAll([], MetadataEntries(GetProfileSpecificFields(profiles, sanitize, id), reportFields))
  }

  /** `getProfileFieldMetadata`: the report metadata of each of the profile's specific fields that has some. */
  method GetProfileFieldMetadata(profiles: Profiles, sanitize: string -> string, id: string, reportFields: Entries)
    returns (metadata: Entries)
    ensures metadata == FieldMetadata(profiles, sanitize, id, reportFields)
  {
    var fields := GetProfileSpecificFields(profiles, sanitize, id);
    metadata := [];
    var i := 0;
    while i < |fields|
      invariant 0 <= i <= |fields|
      invariant metadata == PutAll([], MetadataEntries(fields[..i], reportFields))
    {
      var f := fields[i];
      assert fields[..i + 1][..i] == fields[..i];
      if Isset(reportFields, f) {
        PutAllSnoc([], MetadataEntries(fields[..i], reportFields), f, Get(reportFields, f));
        metadata := Put(metadata, f, Get(reportFields, f));
      }
      i := i + 1;
    }
    assert fields[..i] == fields;
  }

  /**
   * The metadata keys are exactly the profile's specific fields that have
   * report metadata, each with that metadata.
   */
  lemma FieldMetadataExact(profiles: Profiles, sanitize: string -> string, id: string, reportFields: Entries, k: string)
    ensures var m := FieldMetadata(profiles, sanitize, id, reportFields);
      Lookup(m, k).Some? <==> k in GetProfileSpecificFields(profiles, sanitize, id) && Isset(reportFields, k)
    ensures var m := FieldMetadata(profiles, sanitize, id, reportFields);
      Lookup(m, k).Some? ==> Lookup(m, k).value == Get(reportFields, k)
  {
    var es := MetadataEntries(GetProfileSpecificFields(profiles, sanitize, id), reportFields);
    PutAllLookup([], es, k);
    if k in GetProfileSpecificFields(profiles, sanitize, id) && Isset(reportFields, k) {
      assert (k, Get(reportFields, k)) in es;
      var j :| 0 <= j < |es| && es[j] == (k, Get(reportFields, k));
      assert Keys(es)[j] == k;
    }
    if k in Keys(es) {
      var j :| 0 <= j < |Keys(es)| && Keys(es)[j] == k;
      assert es[j] in es;
    }
  }

  // ---------------------------------------------------------------------
  // The two required-field tables
  // ---------------------------------------------------------------------

  /**
   * The per-step contract and the profiles configuration disagree: for
   * estudante-eaa the contract requires two fields while the
   * configuration lists three.
   */
  lemma ContractAndConfigurationDisagree(sanitize: string -> string)
    requires sanitize("estudante-eaa") == "estudante-eaa"
    ensures PerfilCamposContract.AllRequired("estudante-eaa") != GetProfileSpecificFields(ConfiguredProfiles, sanitize, "estudante-eaa")
  {
    EstudanteConfiguredFields(sanitize);
    EstudanteContractFields();
  }

  lemma EstudanteConfiguredFields(sanitize: string -> string)
    requires sanitize("estudante-eaa") == "estudante-eaa"
    ensures "funcao_eaa" in GetProfileSpecificFields(ConfiguredProfiles, sanitize, "estudante-eaa")
  {
    var p := ConfiguredProfiles[0];
    assert p.0 == "estudante-eaa" && p.1.specificFields == Some(["rede_escola", "escola_nome", "funcao_eaa"]);
    assert Lookup(ConfiguredProfiles, "estudante-eaa") == Some(p.1);
  }

  lemma EstudanteContractFields()
    ensures "funcao_eaa" !in PerfilCamposContract.AllRequired("estudante-eaa")
  {
    var steps := PerfilCamposContract.StepsOf("estudante-eaa");
    assert steps == [(3, ["rede_escola", "escola_nome"])];
    assert "funcao_eaa" !in steps[0].1;
  }
}
