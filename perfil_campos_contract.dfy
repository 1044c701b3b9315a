/**
 * The canonical contract between the registration form and the backend:
 * for each of the 13 profiles, the fields required at each form step and
 * the optional fields, and the two validators built on it.  Steps are
 * plain integers; the table only uses step 3.
 */
module PerfilCamposContract {
  import opened Php

  datatype ProfileContract = ProfileContract(requiredByStep: seq<(int, seq<string>)>, optional: seq<string>)

  /** What `validate` and `validatePorEtapa` return. */
  datatype Outcome = Outcome(valid: bool, missing: seq<string>, message: string)

  /** The profile identifiers of the contract, in table order. */
  const ContractProfiles: seq<string> := [
    "estudante-eaa", "profissional-saude-eaa", "profissional-educacao-eaa",
    "bolsista-ies", "voluntario-ies", "coordenador-ies",
    "jovem-mobilizador-nap", "apoiador-pedagogico-nap", "coordenacao-nap",
    "gti-m", "gti-e",
    "coordenacao-fortalece-pse", "representante-ms-mec"
  ]

  /** The contract table, keyed by profile identifier. */
  function GetContract(): (c: map<string, ProfileContract>)
    ensures c.Keys == set p | p in ContractProfiles
  {
    map[
      "estudante-eaa" := ProfileContract([(3, ["rede_escola", "escola_nome"])], []),
      "profissional-saude-eaa" := ProfileContract([(3, ["rede_escola", "escola_nome"])], []),
      "profissional-educacao-eaa" := ProfileContract([(3, ["rede_escola", "escola_nome", "funcao_eaa"])], []),
      "bolsista-ies" := ProfileContract([(3, ["instituicao_nome", "curso_nome"])], []),
      "voluntario-ies" := ProfileContract([(3, ["instituicao_nome", "curso_nome"])], []),
      "coordenador-ies" := ProfileContract([(3, ["instituicao_nome"])], ["curso_nome", "departamento"]),
      "jovem-mobilizador-nap" := ProfileContract([(3, ["nap_nome"])], []),
      "apoiador-pedagogico-nap" := ProfileContract([(3, ["nap_nome"])], []),
      "coordenacao-nap" := ProfileContract([(3, ["nap_nome"])], []),
      "gti-m" := ProfileContract([(3, ["setor_gti", "sistema_responsavel"])], []),
      "gti-e" := ProfileContract([(3, ["setor_gti", "sistema_responsavel", "regiao_responsavel"])], []),
      "coordenacao-fortalece-pse" := ProfileContract([], ["regiao_responsavel"]),
      "representante-ms-mec" := ProfileContract([(3, ["departamento"])], [])
    ]
  }

  /** `isset($contract[$perfil])`. */
  predicate IsPerfilValido(perfil: string)
  {
    perfil in GetContract()
  }

  /** A profile is valid exactly when it is one of the thirteen profiles of the table. */
  lemma ThirteenProfiles(perfil: string)
    ensures IsPerfilValido(perfil) <==> perfil in ContractProfiles
    ensures |ContractProfiles| == 13
    ensures forall i, j :: 0 <= i < j < |ContractProfiles| ==> ContractProfiles[i] != ContractProfiles[j]
  {
  }

  /** `$contract[$perfil]['required_by_step'] ?? []`. */
  function StepsOf(perfil: string): seq<(int, seq<string>)>
  {
    if perfil in GetContract() then GetContract()[perfil].requiredByStep else []
  }

  /** `$requiredByStep[$etapa] ?? []` over a step table. */
  function FieldsAtStep(steps: seq<(int, seq<string>)>, etapa: int): (r: seq<string>)
    ensures (forall k :: 0 <= k < |steps| ==> steps[k].0 != etapa) ==> r == []
    ensures forall k :: 0 <= k < |steps| && steps[k].0 == etapa && (forall j :: 0 <= j < k ==> steps[j].0 != etapa) ==> r == steps[k].1
  {
    if steps == [] then []
    else if steps[0].0 == etapa then steps[0].1
    else
      var r := FieldsAtStep(steps[1..], etapa);
      assert forall k :: 1 <= k < |steps| ==> steps[k] == steps[1..][k - 1];
      r
  }

  /** The lists of the steps, concatenated in step order (the `array_merge` loop). */
  function Flatten(steps: seq<(int, seq<string>)>): (r: seq<string>)
  {
    if steps == [] then [] else Flatten(steps[..|steps| - 1]) + steps[|steps| - 1].1
  }

  lemma {:induction false} FlattenMembership(steps: seq<(int, seq<string>)>, f: string)
    ensures f in Flatten(steps) <==> exists k :: 0 <= k < |steps| && f in steps[k].1
  {
    if steps != [] {
      var init := steps[..|steps| - 1];
      FlattenMembership(init, f);
      assert forall k :: 0 <= k < |init| ==> init[k] == steps[k];
      if f in steps[|steps| - 1].1 {
        assert f in Flatten(steps);
      }
    }
  }

  /**
   * What `getCamposObrigatorios` returns: every field required at some
   * step, each once, first occurrence first.
   */
  function AllRequired(perfil: string): (r: seq<string>)
    ensures forall f :: f in r <==> exists k :: 0 <= k < |StepsOf(perfil)| && f in StepsOf(perfil)[k].1
    ensures forall i, j :: 0 <= i < j < |r| ==> r[i] != r[j]
  {
    var steps := StepsOf(perfil);
    assert forall f :: f in Flatten(steps) <==> exists k :: 0 <= k < |steps| && f in steps[k].1 by {
      forall f { FlattenMembership(steps, f); }
    }
    Unique(Flatten(steps))
  }

  /** `getCamposObrigatorios`: merge the lists of every step, then drop duplicates. */
  method GetCamposObrigatorios(perfil: string) returns (fields: seq<string>)
    ensures fields == AllRequired(perfil)
  {
    var steps := StepsOf(perfil);
    var all: seq<string> := [];
    var i := 0;
    while i < |steps|
      invariant 0 <= i <= |steps|
      invariant all == Flatten(steps[..i])
    {
      assert steps[..i + 1][..i] == steps[..i];
      all := all + steps[i].1;
      i := i + 1;
    }
    assert steps[..|steps|] == steps;
    fields := Unique(all);
  }

  /**
   * `getCamposObrigatoriosPorEtapa`: with no step, every required field
   * of the profile; with a step, that step's list verbatim, or [] when
   * the profile or the step is absent.
   */
  function GetCamposObrigatoriosPorEtapa(perfil: string, etapa: Option<int>): (r: seq<string>)
    ensures etapa.None? ==> r == AllRequired(perfil)
    ensures etapa.Some? && !IsPerfilValido(perfil) ==> r == []
    ensures etapa.Some? && (forall k :: 0 <= k < |StepsOf(perfil)| ==> StepsOf(perfil)[k].0 != etapa.value) ==> r == []
    ensures etapa.Some? ==> forall k :: (0 <= k < |StepsOf(perfil)| && StepsOf(perfil)[k].0 == etapa.value
      && (forall j :: 0 <= j < k ==> StepsOf(perfil)[j].0 != etapa.value)) ==> r == StepsOf(perfil)[k].1
  {
    match etapa
    case None => AllRequired(perfil)
    case Some(e) => FieldsAtStep(StepsOf(perfil), e)
  }

  /** `getCamposOpcionais`: the optional list, [] for an unknown profile. */
  function GetCamposOpcionais(perfil: string): (r: seq<string>)
    ensures !IsPerfilValido(perfil) ==> r == []
  {
    if perfil in GetContract() then GetContract()[perfil].optional else []
  }

  /** No profile lists a field both as required and as optional. */
  lemma OptionalNeverRequired(perfil: string, f: string)
    ensures !(f in GetCamposOpcionais(perfil) && f in AllRequired(perfil))
  {
    if perfil == "coordenador-ies" {
      assert StepsOf(perfil) == [(3, ["instituicao_nome"])];
    } else if perfil == "coordenacao-fortalece-pse" {
      assert StepsOf(perfil) == [];
    } else {
      assert GetCamposOpcionais(perfil) == [];
    }
  }

  // ---------------------------------------------------------------------
  // Validation
  // ---------------------------------------------------------------------

  /** A value the contract treats as not filled in: absent, null, '' or whitespace only. */
  predicate IsMissingValue(v: Value)
  {
    v == Null || v == Str("") || (v.Str? && IsBlankString(v.s))
  }

  /** The required fields, in order, whose value in `data` is missing. */
  function MissingIn(required: seq<string>, data: Entries): (r: seq<string>)
    ensures forall f :: f in r <==> f in required && IsMissingValue(Get(data, f))
    ensures IsSubsequence(r, required)
  {
    if required == [] then []
    else if IsMissingValue(Get(data, required[0])) then [required[0]] + MissingIn(required[1..], data)
    else MissingIn(required[1..], data)
  }

  /** The step as interpolated into the message: '' for null. */
  function EtapaText(etapa: Option<int>): string
  {
    match etapa
    case None => ""
    case Some(e) => IntText(e)
  }

  /** The common shape of both validators, given the required list and the message head. */
  function Check(perfil: string, required: seq<string>, data: Entries, head: string): Outcome
  {
    if !IsPerfilValido(perfil) then Outcome(false, [], "[FPSE CONTRACT] Perfil inválido: " + perfil)
    else if required == [] then Outcome(true, [], "")
    else
      var missing := MissingIn(required, data);
      if missing != [] then
        Outcome(false, missing, head + " inválido. Campos obrigatórios ausentes: " + Join(missing, ", "))
      else Outcome(true, [], "")
  }

  /** What `validate` returns. */
  function Validation(perfil: string, data: Entries): Outcome
  {
    Check(perfil, AllRequired(perfil), data, "[FPSE CONTRACT] Perfil " + perfil)
  }

  /** What `validatePorEtapa` returns. */
  function StepValidation(perfil: string, etapa: Option<int>, data: Entries): Outcome
  {
    Check(perfil, GetCamposObrigatoriosPorEtapa(perfil, etapa), data,
          "[FPSE CONTRACT] Perfil " + perfil + ", Etapa " + EtapaText(etapa))
  }

  /** The loop shared by both validators: collect the missing required fields. */
  method CollectMissing(required: seq<string>, data: Entries) returns (missing: seq<string>)
    ensures missing == MissingIn(required, data)
  {
    missing := [];
    var i := 0;
    while i < |required|
      invariant 0 <= i <= |required|
      invariant missing + MissingIn(required[i..], data) == MissingIn(required, data)
    {
      MissingInStep(required, i, data);
      var value := Get(data, required[i]);
      if value == Null || value == Str("") || (value.Str? && Trim(value.s) == "") {
        assert (missing + [required[i]]) + MissingIn(required[i + 1..], data) == missing + ([required[i]] + MissingIn(required[i + 1..], data));
        missing := missing + [required[i]];
      }
      i := i + 1;
    }
  }

  lemma MissingInStep(required: seq<string>, i: nat, data: Entries)
    requires i < |required|
    ensures MissingIn(required[i..], data)
      == (if IsMissingValue(Get(data, required[i])) then [required[i]] else []) + MissingIn(required[i + 1..], data)
  {
    assert required[i..][1..] == required[i + 1..];
  }

  /** `validate`: the contract check against every required field of the profile. */
  method Validate(perfil: string, data: Entries) returns (r: Outcome)
    ensures r == Validation(perfil, data)
  {
    if !IsPerfilValido(perfil) {
      return Outcome(false, [], "[FPSE CONTRACT] Perfil inválido: " + perfil);
    }
    var required := GetCamposObrigatorios(perfil);
    if required == [] {
      return Outcome(true, [], "");
    }
    var missing := CollectMissing(required, data);
    if missing != [] {
      return Outcome(false, missing, "[FPSE CONTRACT] Perfil " + perfil + " inválido. Campos obrigatórios ausentes: " + Join(missing, ", "));
    }
    r := Outcome(true, [], "");
  }

  /** `validatePorEtapa`: the contract check against one step, or every step when `etapa` is null. */
  method ValidatePorEtapa(perfil: string, etapa: Option<int>, data: Entries) returns (r: Outcome)
    ensures r == StepValidation(perfil, etapa, data)
  {
    if !IsPerfilValido(perfil) {
      return Outcome(false, [], "[FPSE CONTRACT] Perfil inválido: " + perfil);
    }
    var required := GetCamposObrigatoriosPorEtapa(perfil, etapa);
    if required == [] {
      return Outcome(true, [], "");
    }
    var missing := CollectMissing(required, data);
    if missing != [] {
      var head := "[FPSE CONTRACT] Perfil " + perfil + ", Etapa " + EtapaText(etapa);
      return Outcome(false, missing, head + " inválido. Campos obrigatórios ausentes: " + Join(missing, ", "));
    }
    r := Outcome(true, [], "");
  }

  // ---------------------------------------------------------------------
  // Properties of the validators
  // ---------------------------------------------------------------------

  /** An unknown profile is rejected with an empty missing list. */
  lemma UnknownProfileRejected(perfil: string, etapa: Option<int>, data: Entries)
    requires !IsPerfilValido(perfil)
    ensures !StepValidation(perfil, etapa, data).valid && StepValidation(perfil, etapa, data).missing == []
    ensures !Validation(perfil, data).valid && Validation(perfil, data).missing == []
  {
  }

  /**
   * For a known profile the missing list is exactly the required fields
   * of the step whose value is missing, and the result is valid iff that
   * list is empty.
   */
  lemma StepValidationExact(perfil: string, etapa: Option<int>, data: Entries)
    ensures var r := StepValidation(perfil, etapa, data);
      IsPerfilValido(perfil) ==> r.missing == MissingIn(GetCamposObrigatoriosPorEtapa(perfil, etapa), data)
    ensures var r := StepValidation(perfil, etapa, data);
      r.valid <==> IsPerfilValido(perfil) && r.missing == []
  {
    CheckExact(perfil, GetCamposObrigatoriosPorEtapa(perfil, etapa), data,
               "[FPSE CONTRACT] Perfil " + perfil + ", Etapa " + EtapaText(etapa));
  }

  lemma CheckExact(perfil: string, required: seq<string>, data: Entries, head: string)
    ensures var r := Check(perfil, required, data, head);
      IsPerfilValido(perfil) ==> r.missing == MissingIn(required, data)
    ensures var r := Check(perfil, required, data, head);
      r.valid <==> IsPerfilValido(perfil) && r.missing == []
  {
  }

  /** A step that requires nothing accepts any data for a known profile. */
  lemma EmptyStepAlwaysValid(perfil: string, etapa: Option<int>, data: Entries)
    requires IsPerfilValido(perfil) && GetCamposObrigatoriosPorEtapa(perfil, etapa) == []
    ensures StepValidation(perfil, etapa, data).valid
  {
  }

  /** coordenacao-fortalece-pse requires nothing at any step. */
  lemma GovernanceProfileAlwaysValid(etapa: Option<int>, data: Entries)
    ensures StepValidation("coordenacao-fortalece-pse", etapa, data).valid
    ensures Validation("coordenacao-fortalece-pse", data).valid
  {
    assert StepsOf("coordenacao-fortalece-pse") == [];
  }

  /** `validate` is `validatePorEtapa` with a null step, up to the message text. */
  lemma ValidateAgreesWithNullStep(perfil: string, data: Entries)
    ensures Validation(perfil, data).valid == StepValidation(perfil, None, data).valid
    ensures Validation(perfil, data).missing == StepValidation(perfil, None, data).missing
  {
  }
}
