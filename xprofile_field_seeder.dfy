/**
 * The BuddyBoss xProfile field seeder (`XProfileFieldSeeder`): the 23
 * registration fields, their group "Dados do Cadastro FPSE", the option rows
 * of the select boxes, the `fpse_xprofile_field_<key>` option cache, and the
 * clean-up that removes the plugin's fields while keeping BuddyBoss's own.
 *
 * The `bp_xprofile_groups`, `bp_xprofile_fields` and `bp_xprofile_data`
 * tables and the options table are fields of the class `Tables`; the
 * BuddyBoss API (`xprofile_insert_field`) and the outcome of each database
 * write are parameters.
 */
module XProfileFieldSeeder {
  import opened Php

  // ---------------------------------------------------------------------
  // Rows and generic table helpers
  // ---------------------------------------------------------------------

  /** A row of `bp_xprofile_groups`. */
  datatype GroupRow = GroupRow(id: nat, name: string, description: string, groupOrder: nat, canDelete: bool)

  /** A row of `bp_xprofile_fields`: a field (parent 0) or one of a field's options. */
  datatype FieldRow = FieldRow(id: nat, groupId: nat, parentId: nat, fieldType: string, name: string,
                               description: string, isRequired: bool, fieldOrder: nat, optionOrder: nat,
                               canDelete: bool, orderBy: string)

  /** A row of `bp_xprofile_data`. */
  datatype DataRow = DataRow(fieldId: nat, userId: nat, value: string)

  /** The rows satisfying `p`, in table order (a `DELETE` keeps the others). */
  function Filter<T(!new)>(s: seq<T>, p: T -> bool): (r: seq<T>)
    ensures forall x :: x in r <==> x in s && p(x)
    ensures |r| <= |s|
  {
    if s == [] then [] else (if p(s[0]) then [s[0]] else []) + Filter(s[1..], p)
  }

  lemma {:induction false} FilterAppend<T(!new)>(a: seq<T>, b: seq<T>, p: T -> bool)
    ensures Filter(a + b, p) == Filter(a, p) + Filter(b, p)
  {
    if a == [] {
      assert a + b == b;
    } else {
      assert (a + b)[1..] == a[1..] + b;
      FilterAppend(a[1..], b, p);
    }
  }

  lemma {:induction false} FilterAll<T(!new)>(s: seq<T>, p: T -> bool)
    requires forall i :: 0 <= i < |s| ==> p(s[i])
    ensures Filter(s, p) == s
  {
    if s != [] {
      FilterAll(s[1..], p);
    }
  }

  /** The first row satisfying `p` (`SELECT ... LIMIT 1`). */
  function FirstWhere<T(!new)>(s: seq<T>, p: T -> bool): (r: Option<T>)
    ensures r.Some? ==> r.value in s && p(r.value)
    ensures r.None? <==> forall x :: x in s ==> !p(x)
  {
    if s == [] then None else if p(s[0]) then Some(s[0]) else FirstWhere(s[1..], p)
  }

  /** The group with the given id. */
  function GroupById(groups: seq<GroupRow>, id: nat): Option<GroupRow>
  {
    FirstWhere(groups, (g: GroupRow) => g.id == id)
  }

  /** `(int)` of an `id` column, 0 standing for "no row". */
  function IdOf(r: Option<FieldRow>): nat
  {
    if r.Some? then r.value.id else 0
  }

  // ---------------------------------------------------------------------
  // The field definitions
  // ---------------------------------------------------------------------

  /** One entry of the field definitions; `options` is empty when the entry has none. */
  datatype FieldDef = FieldDef(key: string, name: string, description: string, fieldType: string,
                               isRequired: bool, canDelete: bool, options: seq<(string, string)>)

  const Definitions: seq<FieldDef> := [
    FieldDef("cpf", "CPF", "CPF do usuário", "textbox", true, false,
             []),
    FieldDef("telefone", "Telefone", "Telefone com DDD", "textbox", true, false,
             []),
    FieldDef("data_nascimento", "Data de Nascimento", "Data de nascimento do usuário", "datebox", true, false,
             []),
    FieldDef("genero", "Gênero", "Gênero do usuário", "selectbox", true, false,
             [("mulher", "Mulher"), ("homem", "Homem"), ("nao-binario", "Não-binário"), ("trans-travesti", "Trans/Travesti"), ("outro", "Outro"), ("prefiro-nao-informar", "Prefiro não informar")]),
    FieldDef("raca_cor", "Raça/Cor", "Raça ou cor do usuário", "selectbox", true, false,
             [("branca", "Branca"), ("preta", "Preta"), ("parda", "Parda"), ("amarela", "Amarela"), ("indigena", "Indígena")]),
    FieldDef("nome_social", "Nome Social", "Nome social do usuário", "textbox", false, false,
             []),
    FieldDef("logradouro", "Logradouro", "Rua, avenida, etc.", "textbox", true, false,
             []),
    FieldDef("numero", "Número", "Número do endereço", "textbox", true, false,
             []),
    FieldDef("complemento", "Complemento", "Complemento do endereço", "textbox", false, false,
             []),
    FieldDef("bairro", "Bairro", "Bairro", "textbox", true, false,
             []),
    FieldDef("cep", "CEP", "CEP do endereço", "textbox", true, false,
             []),
    FieldDef("municipio", "Município", "Município", "textbox", true, false,
             []),
    FieldDef("estado", "Estado", "Estado (UF)", "textbox", true, false,
             []),
    FieldDef("instituicao_nome", "Nome da IES", "Nome da Instituição de Ensino Superior", "textbox", false, false,
             []),
    FieldDef("escola_nome", "Nome da Escola", "Nome da escola", "textbox", false, false,
             []),
    FieldDef("rede_escola", "Rede da Escola", "Rede da escola (municipal, estadual, federal, privada)", "selectbox", false, false,
             [("municipal", "Municipal"), ("estadual", "Estadual"), ("federal", "Federal"), ("privada", "Privada")]),
    FieldDef("nap_nome", "Número do NAP", "Número do Núcleo de Acessibilidade Pedagógica", "textbox", false, false,
             []),
    FieldDef("curso_nome", "Curso", "Nome do curso", "textbox", false, false,
             []),
    FieldDef("setor_gti", "Setor GTI", "Setor de Gestão Tecnológica Inclusiva", "textbox", false, false,
             []),
    FieldDef("sistema_responsavel", "Sistema Responsável", "Sistema pelo qual é responsável", "textbox", false, false,
             []),
    FieldDef("regiao_responsavel", "Região Responsável", "Região pela qual é responsável", "selectbox", false, false,
             [("saude", "Saúde"), ("educacao", "Educação")]),
    FieldDef("departamento", "Departamento", "Departamento MS/MEC", "textbox", false, false,
             []),
    FieldDef("funcao_eaa", "Função na EAA", "Função na Educação de Adolescentes e Adultos", "textbox", false, false,
             [])

  ]

  const GroupName: string := "Dados do Cadastro FPSE"
  const GroupDescription: string := "Campos do formulário de cadastro do Fortalece PSE"
  const OptionPrefix: string := "fpse_xprofile_field_"
  const UnavailableMessage: string := "BuddyBoss xProfile não está disponível"
  const NoGroupMessage: string := "Não foi possível criar o grupo de campos"
  const RemoveFailedMessage: string := "Falha ao remover campo: "

  /** The groups BuddyBoss ships with, whose fields are never removed. */
  const NativeGroups: seq<string> := ["Base", "Extended", "Essenciais", "Dados Complementares", "Endereço Completo", "Dados Bancários"]

  /** The option caching a field's id. */
  function OptionKey(key: string): string
  {
    OptionPrefix + key
  }

  /** The definition with the given key. */
  function DefinitionOf(key: string): Option<FieldDef>
  {
    FirstWhere(Definitions, (d: FieldDef) => d.key == key)
  }

  /** The position of the first definition with the given name (`array_search` over the names). */
  function NameIndex(defs: seq<FieldDef>, name: string): (r: Option<nat>)
    ensures r.Some? ==> r.value < |defs| && defs[r.value].name == name
    ensures r.None? ==> forall i :: 0 <= i < |defs| ==> defs[i].name != name
  {
    if defs == [] then None
    else if defs[0].name == name then Some(0)
    else match NameIndex(defs[1..], name)
      case None => None
      case Some(i) => Some(i + 1)
  }

  /**
   * The option `removeExistingFields` deletes for a removed field, as
   * written: `array_column` numbers the names 0, 1, ..., so `array_search`
   * yields a position, not a definition key; a name that is not found
   * yields false, which concatenates as ''.
   */
  function RemovedOptionKeyAsWritten(name: string): string
  {
    match NameIndex(Definitions, name)
    case Some(i) => OptionPrefix + NatText(i)
    case None => OptionPrefix
  }

  /** The evidently intended option: the one `createOrUpdateField` wrote for that definition. */
  function RemovedOptionKey(name: string): Option<string>
  {
    match NameIndex(Definitions, name)
    case Some(i) => Some(OptionKey(Definitions[i].key))
    case None => None
  }

  predicate KeyStartsWithLetter(key: string)
  {
    key != [] && 'a' <= key[0] <= 'z'
  }

  /** The keys of `$fieldDefinitions`, in order. */
  const DefinitionKeyList: seq<string> := [
    "cpf", "telefone", "data_nascimento", "genero", "raca_cor", "nome_social", "logradouro", "numero",
    "complemento", "bairro", "cep", "municipio", "estado", "instituicao_nome", "escola_nome",
    "rede_escola", "nap_nome", "curso_nome", "setor_gti", "sistema_responsavel",
    "regiao_responsavel", "departamento", "funcao_eaa"]

  /** The definition table carries exactly the listed keys, in that order. */
  lemma DefinitionKeysListed()
    ensures DefinitionKeys() == DefinitionKeyList
  {
  }

  lemma KeyListFacts()
    ensures forall i, j :: 0 <= i < j < |DefinitionKeyList| ==> DefinitionKeyList[i] != DefinitionKeyList[j]
    ensures forall i :: 0 <= i < |DefinitionKeyList| ==> KeyStartsWithLetter(DefinitionKeyList[i])
  {
  }

  /** No two definitions share a key, as the keys of a PHP array never repeat. */
  lemma DefinitionKeysDistinct()
    ensures forall i, j :: 0 <= i < j < |Definitions| ==> Definitions[i].key != Definitions[j].key
  {
    DefinitionKeysListed();
    KeyListFacts();
    forall i, j | 0 <= i < j < |Definitions|
      ensures Definitions[i].key != Definitions[j].key
    {
      assert Definitions[i].key == DefinitionKeyList[i] && Definitions[j].key == DefinitionKeyList[j];
    }
  }

  /** Every definition key starts with a lowercase letter. */
  lemma DefinitionKeysStartWithLetter()
    ensures forall i :: 0 <= i < |Definitions| ==> KeyStartsWithLetter(Definitions[i].key)
  {
    DefinitionKeysListed();
    KeyListFacts();
    forall i | 0 <= i < |Definitions|
      ensures KeyStartsWithLetter(Definitions[i].key)
    {
      assert Definitions[i].key == DefinitionKeyList[i];
    }
  }

  lemma {:induction false} NatTextStartsWithDigit(n: nat)
    ensures NatText(n) != [] && '0' <= NatText(n)[0] <= '9'
  {
    if n >= 10 {
      NatTextStartsWithDigit(n / 10);
    }
  }

  /**
   * The key deleted as written is never the key of any definition, so the
   * cached id of every removed field survives the clean-up.
   */
  lemma RemovedOptionKeyAsWrittenMisses(name: string, j: nat)
    requires j < |Definitions|
    ensures RemovedOptionKeyAsWritten(name) != OptionKey(Definitions[j].key)
  {
    DefinitionKeysStartWithLetter();
    var d := Definitions[j];
    var a := RemovedOptionKeyAsWritten(name);
    var b := OptionKey(d.key);
    assert b[|OptionPrefix|] == d.key[0];
    match NameIndex(Definitions, name)
    case Some(i) =>
      NatTextStartsWithDigit(i);
      assert a[|OptionPrefix|] == NatText(i)[0];
    case None =>
      assert |a| < |b|;
  }

  /** The corrected key is the one the seeder caches under. */
  lemma RemovedOptionKeyMatches(i: nat)
    requires i < |Definitions|
    ensures NameIndex(Definitions, Definitions[i].name).Some? ==>
      RemovedOptionKey(Definitions[i].name) == Some(OptionKey(Definitions[NameIndex(Definitions, Definitions[i].name).value].key))
    ensures RemovedOptionKey(Definitions[i].name).Some?
  {
  }

  /** A concrete case: the CPF field, first of the definitions, has its option deleted as `fpse_xprofile_field_0`. */
  lemma RemovedOptionKeyCpf()
    ensures RemovedOptionKeyAsWritten("CPF") == "fpse_xprofile_field_0"
    ensures RemovedOptionKey("CPF") == Some("fpse_xprofile_field_cpf")
  {
    assert Definitions[0].name == "CPF" && Definitions[0].key == "cpf";
    assert NameIndex(Definitions, "CPF") == Some(0);
    assert OptionKey("cpf") == "fpse_xprofile_field_cpf";
  }

  // ---------------------------------------------------------------------
  // The created flag of the API path
  // ---------------------------------------------------------------------

  /**
   * The API path's `created` flag as written: `$fieldId` already holds
   * `(int) $newFieldId` when it is tested, so the flag ignores whether a
   * field existed before.
   */
  function ApiCreatedAsWritten(priorId: nat, newFieldId: nat): bool
  {
    var fieldId := newFieldId;
    fieldId == 0 || fieldId != newFieldId
  }

  /** The evidently intended flag: created exactly when no field id was known before the call. */
  function ApiCreated(priorId: nat, newFieldId: nat): bool
  {
    priorId == 0
  }

  /** As written the flag is true only for a new id of 0, whatever the prior id. */
  lemma ApiCreatedAsWrittenOnlyZero(priorId: nat, newFieldId: nat)
    ensures ApiCreatedAsWritten(priorId, newFieldId) <==> newFieldId == 0
  {
  }

  /** The input that shows it: no prior field, BuddyBoss returns id 7, and the field is reported as updated. */
  lemma ApiCreatedCounterexample()
    ensures !ApiCreatedAsWritten(0, 7) && ApiCreated(0, 7)
  {
  }

  /** The intended flag separates the two paths: a known id is an update, an unknown one a creation. */
  lemma ApiCreatedSeparates(priorId: nat, newFieldId: nat, newFieldId': nat)
    ensures ApiCreated(priorId, newFieldId) == ApiCreated(priorId, newFieldId')
    ensures ApiCreated(priorId, newFieldId) <==> priorId == 0
  {
  }

  // ---------------------------------------------------------------------
  // Option rows of a select box
  // ---------------------------------------------------------------------

  /** The row `createFieldOptions` inserts for one option: group 0, parent the field, both orders the position. */
  function OptionRow(id: nat, fieldId: nat, caption: string, order: nat): FieldRow
  {
    FieldRow(id, 0, fieldId, "option", caption, "", false, order, order, true, "custom")
  }

  /** The rows `createFieldOptions` inserts, with ids from `firstId`. */
  function OptionRows(firstId: nat, fieldId: nat, options: seq<(string, string)>): seq<FieldRow>
  {
    if options == [] then []
    else OptionRows(firstId, fieldId, options[..|options| - 1])
         + [OptionRow(firstId + |options| - 1, fieldId, options[|options| - 1].1, |options|)]
  }

  /** The rows of one more option: the rows so far and the next option's row. */
  lemma OptionRowsSnoc(firstId: nat, fieldId: nat, options: seq<(string, string)>, k: nat)
    requires k < |options|
    ensures OptionRows(firstId, fieldId, options[..k + 1])
      == OptionRows(firstId, fieldId, options[..k]) + [OptionRow(firstId + k, fieldId, options[k].1, k + 1)]
  {
    assert options[..k + 1][..k] == options[..k];
  }

  /** One more option row keeps the rows in step with the options and the field ids valid. */
  lemma OptionStep(rows0: seq<FieldRow>, next0: nat, fieldId: nat, options: seq<(string, string)>, k: nat, rows: seq<FieldRow>)
    requires k < |options| && next0 > 0
    requires rows == rows0 + OptionRows(next0, fieldId, options[..k]) && FieldIds(rows, next0 + k)
    ensures rows + [OptionRow(next0 + k, fieldId, options[k].1, k + 1)] == rows0 + OptionRows(next0, fieldId, options[..k + 1])
    ensures FieldIds(rows + [OptionRow(next0 + k, fieldId, options[k].1, k + 1)], next0 + k + 1)
  {
    OptionRowsSnoc(next0, fieldId, options, k);
    AppendFieldId(rows, OptionRow(next0 + k, fieldId, options[k].1, k + 1), next0 + k);
  }

  /**
   * One row per option, in the given order: the i-th carries the i-th
   * label, is numbered i + 1 in both orders and has the i-th fresh id.
   */
  lemma {:induction false} OptionRowsShape(firstId: nat, fieldId: nat, options: seq<(string, string)>)
    ensures |OptionRows(firstId, fieldId, options)| == |options|
    ensures forall i :: 0 <= i < |options| ==>
      OptionRows(firstId, fieldId, options)[i] == OptionRow(firstId + i, fieldId, options[i].1, i + 1)
  {
    if options != [] {
      var init := options[..|options| - 1];
      OptionRowsShape(firstId, fieldId, init);
      forall i | 0 <= i < |options| - 1
        ensures OptionRows(firstId, fieldId, options)[i] == OptionRow(firstId + i, fieldId, options[i].1, i + 1)
      {
        assert init[i] == options[i];
      }
    }
  }

  /** The option rows of a field. */
  function OptionOf(fieldId: nat): FieldRow -> bool
  {
    (r: FieldRow) => r.parentId == fieldId && r.fieldType == "option"
  }

  /** The rows `updateFieldOptions` keeps before re-creating the options. */
  function NotOptionOf(fieldId: nat): FieldRow -> bool
  {
    (r: FieldRow) => !(r.parentId == fieldId && r.fieldType == "option")
  }

  lemma FilterNone<T(!new)>(s: seq<T>, p: T -> bool)
    requires forall x :: x in s ==> !p(x)
    ensures Filter(s, p) == []
  {
  }

  /**
   * After `updateFieldOptions` a field's options are exactly the given
   * ones, in order: no option of the old list survives.
   */
  lemma OptionsAfterUpdate(fields: seq<FieldRow>, firstId: nat, fieldId: nat, options: seq<(string, string)>)
    ensures Filter(Filter(fields, NotOptionOf(fieldId)) + OptionRows(firstId, fieldId, options), OptionOf(fieldId))
      == OptionRows(firstId, fieldId, options)
  {
    var kept := Filter(fields, NotOptionOf(fieldId));
    var rows := OptionRows(firstId, fieldId, options);
    FilterAppend(kept, rows, OptionOf(fieldId));
    FilterNone(kept, OptionOf(fieldId));
    OptionRowsShape(firstId, fieldId, options);
    FilterAll(rows, OptionOf(fieldId));
  }

  // ---------------------------------------------------------------------
  // Results of seeding
  // ---------------------------------------------------------------------

  /** The array `createOrUpdateField` returns; `error` is '' on success. */
  datatype FieldResult = FieldResult(success: bool, created: bool, error: string)

  /** A fallback write's result: success exactly when the database write succeeds, and otherwise its error. */
  predicate FallbackResult(r: FieldResult, dbOk: bool, dbError: string)
  {
    (r.success <==> dbOk) && (!r.success ==> r.error == dbError)
  }

  /** The array `seed` returns. */
  datatype SeedReport = SeedReport(created: seq<string>, updated: seq<string>, errors: seq<string>)

  /** `"{$fieldKey}: {$result['error']}"`. */
  function ErrorLine(key: string, error: string): string
  {
    key + ": " + error
  }

  /** One definition's effect on the report. */
  function SeedStep(rep: SeedReport, key: string, r: FieldResult): SeedReport
  {
    if !r.success then rep.(errors := rep.errors + [ErrorLine(key, r.error)])
    else if r.created then rep.(created := rep.created + [key])
    else rep.(updated := rep.updated + [key])
  }

  /** The report after the given results, in definition order. */
  function ReportOf(keys: seq<string>, results: seq<FieldResult>): SeedReport
    requires |keys| == |results|
  {
    if keys == [] then SeedReport([], [], [])
    else SeedStep(ReportOf(keys[..|keys| - 1], results[..|results| - 1]), keys[|keys| - 1], results[|results| - 1])
  }

  /** One more fallback result after fallback results, one per definition so far. */
  lemma FallbackSnoc(defs: seq<FieldDef>, results: seq<FieldResult>, r: FieldResult, dbOk: string -> bool, dbError: string)
    requires |results| < |defs|
    requires forall j :: 0 <= j < |results| ==> FallbackResult(results[j], dbOk(defs[j].key), dbError)
    requires FallbackResult(r, dbOk(defs[|results|].key), dbError)
    ensures forall j :: 0 <= j < |results| + 1 ==> FallbackResult((results + [r])[j], dbOk(defs[j].key), dbError)
  {
    forall j | 0 <= j < |results| + 1
      ensures FallbackResult((results + [r])[j], dbOk(defs[j].key), dbError)
    {
      if j < |results| {
        assert (results + [r])[j] == results[j];
      }
    }
  }

  /** The report after one more result: the earlier report, stepped by that result. */
  lemma ReportOfSnoc(keys: seq<string>, results: seq<FieldResult>, r: FieldResult)
    requires |results| < |keys|
    ensures ReportOf(keys[..|results| + 1], results + [r]) == SeedStep(ReportOf(keys[..|results|], results), keys[|results|], r)
  {
    var i := |results|;
    assert keys[..i + 1][..i] == keys[..i];
    assert (results + [r])[..i] == results;
  }

  /** Every definition adds exactly one entry to the report; created and updated keep definition order. */
  lemma ReportOfSizes(keys: seq<string>, results: seq<FieldResult>)
    requires |keys| == |results|
    ensures var rep := ReportOf(keys, results);
      |rep.created| + |rep.updated| + |rep.errors| == |keys|
    ensures IsSubsequence(ReportOf(keys, results).created, keys) && IsSubsequence(ReportOf(keys, results).updated, keys)
  {
    ReportOfCount(keys, results);
    ReportOfOrder(keys, results);
  }

  lemma {:induction false} ReportOfCount(keys: seq<string>, results: seq<FieldResult>)
    requires |keys| == |results|
    ensures var rep := ReportOf(keys, results);
      |rep.created| + |rep.updated| + |rep.errors| == |keys|
  {
    if keys != [] {
      ReportOfCount(keys[..|keys| - 1], results[..|results| - 1]);
    }
  }

  lemma {:induction false} ReportOfOrder(keys: seq<string>, results: seq<FieldResult>)
    requires |keys| == |results|
    ensures IsSubsequence(ReportOf(keys, results).created, keys) && IsSubsequence(ReportOf(keys, results).updated, keys)
  {
    if keys == [] {
      SubsequenceEmpty(keys);
    } else {
      var n := |keys| - 1;
      var ks, rs := keys[..n], results[..n];
      ReportOfOrder(ks, rs);
      var prev := ReportOf(ks, rs);
      SplitLast(keys);
      SubsequenceSnoc(prev.created, ks, keys[n]);
      SubsequenceSnoc(prev.updated, ks, keys[n]);
    }
  }

  /** A succeeded definition is listed as created or updated according to its flag; a failed one as an error line. */
  lemma {:induction false} ReportOfLists(keys: seq<string>, results: seq<FieldResult>, i: nat)
    requires |keys| == |results| && i < |keys|
    ensures results[i].success && results[i].created ==> keys[i] in ReportOf(keys, results).created
    ensures results[i].success && !results[i].created ==> keys[i] in ReportOf(keys, results).updated
    ensures !results[i].success ==> ErrorLine(keys[i], results[i].error) in ReportOf(keys, results).errors
  {
    var n := |keys| - 1;
    if i < n {
      var ks, rs := keys[..n], results[..n];
      assert ks[i] == keys[i] && rs[i] == results[i];
      ReportOfLists(ks, rs, i);
    }
  }

  /** Only succeeded definitions are listed as created or updated, according to their flag. */
  lemma {:induction false} ReportOfOnly(keys: seq<string>, results: seq<FieldResult>, k: string)
    requires |keys| == |results|
    ensures k in ReportOf(keys, results).created ==>
      exists i :: 0 <= i < |keys| && keys[i] == k && results[i].success && results[i].created
    ensures k in ReportOf(keys, results).updated ==>
      exists i :: 0 <= i < |keys| && keys[i] == k && results[i].success && !results[i].created
  {
    if keys != [] {
      var n := |keys| - 1;
      var ks, rs := keys[..n], results[..n];
      ReportOfOnly(ks, rs, k);
      if k in ReportOf(ks, rs).created {
        var i :| 0 <= i < n && ks[i] == k && rs[i].success && rs[i].created;
        assert keys[i] == k && results[i] == rs[i];
      }
      if k in ReportOf(ks, rs).updated {
        var i :| 0 <= i < n && ks[i] == k && rs[i].success && !rs[i].created;
        assert keys[i] == k && results[i] == rs[i];
      }
    }
  }

  /** The keys of the definitions, in order. */
  function DefinitionKeys(): (ks: seq<string>)
    ensures |ks| == |Definitions|
  {
    KeysOf(Definitions)
  }

  function KeysOf(defs: seq<FieldDef>): (ks: seq<string>)
    ensures |ks| == |defs|
  {
    seq(|defs|, i requires 0 <= i < |defs| => defs[i].key)
  }

  /** The API's answer for a field: its new id, or a `WP_Error` message. */
  datatype ApiAnswer = Inserted(id: nat) | WpError(message: string)

  /** `xprofile_insert_field`, when it exists, as a function of the definition key and the id passed in (0 for none). */
  datatype FieldApi = NoFieldApi | FieldApi(insert: (string, nat) -> ApiAnswer)

  /** The top-level field with the given name in the given group. */
  function TopLevelNamed(name: string, groupId: nat): FieldRow -> bool
  {
    (r: FieldRow) => r.name == name && r.groupId == groupId && r.parentId == 0
  }

  /** A field or option with the given name in the given group. */
  function NamedInGroup(name: string, groupId: nat): FieldRow -> bool
  {
    (r: FieldRow) => r.name == name && r.groupId == groupId
  }

  function NamedField(name: string): FieldRow -> bool
  {
    (r: FieldRow) => r.name == name
  }

  function TopLevelNamedAnywhere(name: string): FieldRow -> bool
  {
    (r: FieldRow) => r.name == name && r.parentId == 0
  }

  function GroupNamed(name: string): GroupRow -> bool
  {
    (g: GroupRow) => g.name == name
  }

  /** The row the fallback path writes for a definition. */
  function DefinitionRow(id: nat, groupId: nat, def: FieldDef): FieldRow
  {
    FieldRow(id, groupId, 0, def.fieldType, def.name, def.description, def.isRequired, 0, 0, def.canDelete, "default")
  }

  /** `UPDATE ... WHERE id = ...`: every row with that id becomes `row`. */
  function ReplaceRow(fields: seq<FieldRow>, id: nat, row: FieldRow): (r: seq<FieldRow>)
    ensures |r| == |fields|
    ensures forall i :: 0 <= i < |fields| ==> r[i] == if fields[i].id == id then row else fields[i]
  {
    seq(|fields|, i requires 0 <= i < |fields| => if fields[i].id == id then row else fields[i])
  }

  /** Whether a select box's options are (re)created: the type is selectbox and the definition has options. */
  predicate HasOptions(def: FieldDef)
  {
    def.fieldType == "selectbox" && def.options != []
  }

  /** The name of the group a row belongs to is one of BuddyBoss's own. */
  predicate InNativeGroup(groups: seq<GroupRow>, r: FieldRow)
  {
    match GroupById(groups, r.groupId)
    case Some(g) => g.name in NativeGroups
    case None => false
  }

  /** The report `removeExistingFields` returns. */
  datatype RemoveReport = RemoveReport(removed: seq<string>, errors: seq<string>)

  /** Field ids are positive, below the next id, and name one row each. */
  predicate FieldIds(fields: seq<FieldRow>, next: nat)
  {
    (forall f :: f in fields ==> 0 < f.id < next)
    && (forall f, h :: f in fields && h in fields && f.id == h.id ==> f == h)
  }

  /** A row under the next id keeps the field ids valid, with the next id one further. */
  lemma AppendFieldId(fields: seq<FieldRow>, row: FieldRow, next: nat)
    requires FieldIds(fields, next) && row.id == next > 0
    ensures FieldIds(fields + [row], next + 1)
  {
    forall f | f in fields + [row]
      ensures f == row || f in fields
    {
    }
  }

  /** No row carries one of the ids. */
  predicate NoneWithIds(fields: seq<FieldRow>, ids: set<nat>)
  {
    forall h :: h in fields ==> h.id !in ids
  }

  /** Keeping some of the rows keeps the field ids valid. */
  lemma SubsetFieldIds(fields: seq<FieldRow>, kept: seq<FieldRow>, next: nat)
    requires FieldIds(fields, next) && forall f :: f in kept ==> f in fields
    ensures FieldIds(kept, next)
  {
  }

  /** The rows a field's deletion keeps: not its options, and not the field itself once its `DELETE` succeeds. */
  function Surviving(id: nat, ok: bool): FieldRow -> bool
  {
    (h: FieldRow) => h.parentId != id && !(ok && h.id == id)
  }

  /** The rows kept once the fields with ids in `parents` lost their options and those with ids in `gone` their own rows. */
  function Outside(parents: set<nat>, gone: set<nat>): FieldRow -> bool
  {
    (h: FieldRow) => h.parentId !in parents && h.id !in gone
  }

  /** The top-level fields of a group. */
  function TopLevelIn(groupId: nat): FieldRow -> bool
  {
    (f: FieldRow) => f.groupId == groupId && f.parentId == 0
  }

  /** The groups other than the one with the given id. */
  function OtherGroup(id: nat): GroupRow -> bool
  {
    (g: GroupRow) => g.id != id
  }

  /** The ids of some rows, and those of them whose `DELETE` succeeds. */
  function IdsOf(rows: seq<FieldRow>): set<nat>
  {
    set f | f in rows :: f.id
  }

  function OkIdsOf(rows: seq<FieldRow>, deleteOk: nat -> bool): set<nat>
  {
    set f | f in rows && deleteOk(f.id) :: f.id
  }

  /** Two reports, one after the other. */
  function Joined(a: RemoveReport, b: RemoveReport): RemoveReport
  {
    RemoveReport(a.removed + b.removed, a.errors + b.errors)
  }

  /**
   * The report of the loop over the plugin group's fields `gf`: a field is
   * listed as removed the first time it is met when its `DELETE` succeeds,
   * and as a failure otherwise (a row met again is already gone).
   */
  function GroupReport(gf: seq<FieldRow>, deleteOk: nat -> bool): RemoveReport
  {
    if gf == [] then RemoveReport([], [])
    else
      var r := GroupReport(gf[..|gf| - 1], deleteOk);
      var f := gf[|gf| - 1];
      if deleteOk(f.id) && f !in gf[..|gf| - 1] then r.(removed := r.removed + [f.name])
      else r.(errors := r.errors + [RemoveFailedMessage + f.name])
  }

  /** The field the name-matching loop removes for `name`: the first top-level one carrying it, when its group exists and is not native. */
  function NamedTarget(fields: seq<FieldRow>, groups: seq<GroupRow>, name: string): (t: Option<FieldRow>)
    ensures t.Some? ==> t.value in fields && t.value.name == name && t.value.parentId == 0 && !InNativeGroup(groups, t.value)
  {
    var f := FirstWhere(fields, TopLevelNamedAnywhere(name));
    if f.Some? && GroupById(groups, f.value.groupId).Some? && GroupById(groups, f.value.groupId).value.name !in NativeGroups
    then f else None
  }

  /** The report of the name-matching loop over `defs`: each target is listed as removed when its `DELETE` succeeds, else as a failure. */
  function NamedReport(fields: seq<FieldRow>, groups: seq<GroupRow>, deleteOk: nat -> bool, defs: seq<FieldDef>): RemoveReport
  {
    if defs == [] then RemoveReport([], [])
    else
      var r := NamedReport(fields, groups, deleteOk, defs[..|defs| - 1]);
      var name := defs[|defs| - 1].name;
      var t := NamedTarget(fields, groups, name);
      if t.None? then r
      else if deleteOk(t.value.id) then r.(removed := r.removed + [name])
      else r.(errors := r.errors + [RemoveFailedMessage + name])
  }

  /** The top-level fields of the plugin's group, as the first loop of `removeExistingFields` lists them. */
  function FpseFields(fields: seq<FieldRow>, groups: seq<GroupRow>): seq<FieldRow>
  {
    match FirstWhere(groups, GroupNamed(GroupName))
    case None => []
    case Some(g) => Filter(fields, TopLevelIn(g.id))
  }

  /** The groups once the plugin's group is dropped. */
  function GroupsAfter(groups: seq<GroupRow>): seq<GroupRow>
  {
    match FirstWhere(groups, GroupNamed(GroupName))
    case None => groups
    case Some(g) => Filter(groups, OtherGroup(g.id))
  }

  /** The fields once the first loop has removed the plugin group's fields. */
  function FieldsAfter(fields: seq<FieldRow>, groups: seq<GroupRow>, deleteOk: nat -> bool): seq<FieldRow>
  {
    var gf := FpseFields(fields, groups);
    Filter(fields, Outside(IdsOf(gf), OkIdsOf(gf, deleteOk)))
  }

  /** The ids of the name-matching loop's targets over `defs`. */
  function TargetIds(fields: seq<FieldRow>, groups: seq<GroupRow>, defs: seq<FieldDef>): set<nat>
  {
    if defs == [] then {}
    else
      var t := NamedTarget(fields, groups, defs[|defs| - 1].name);
      TargetIds(fields, groups, defs[..|defs| - 1]) + (if t.Some? then {t.value.id} else {})
  }

  /**
   * The ids `removeExistingFields` deletes by (as a row's `id`, as an
   * option's `parent_id`, as a data row's `field_id`): the plugin group's
   * top-level fields, then each definition's target once they are gone.
   */
  function RemovalIds(fields: seq<FieldRow>, groups: seq<GroupRow>, deleteOk: nat -> bool): set<nat>
  {
    IdsOf(FpseFields(fields, groups)) + TargetIds(FieldsAfter(fields, groups, deleteOk), GroupsAfter(groups), Definitions)
  }

  /** The whole report of `removeExistingFields` on installed tables: the plugin group's fields, then the name-matching loop. */
  function RemovalReport(fields: seq<FieldRow>, groups: seq<GroupRow>, deleteOk: nat -> bool): RemoveReport
  {
    Joined(GroupReport(FpseFields(fields, groups), deleteOk),
           NamedReport(FieldsAfter(fields, groups, deleteOk), GroupsAfter(groups), deleteOk, Definitions))
  }

  lemma {:induction false} FilterSame<T(!new)>(s: seq<T>, p: T -> bool, q: T -> bool)
    requires forall x :: x in s ==> p(x) == q(x)
    ensures Filter(s, p) == Filter(s, q)
  {
    if s != [] {
      assert forall x :: x in s[1..] ==> x in s;
      FilterSame(s[1..], p, q);
    }
  }

  /** Filtering twice is filtering once by both conditions. */
  lemma {:induction false} FilterTwice<T(!new)>(s: seq<T>, p: T -> bool, q: T -> bool, r: T -> bool)
    requires forall x :: x in s ==> r(x) == (p(x) && q(x))
    ensures Filter(Filter(s, p), q) == Filter(s, r)
  {
    if s != [] {
      assert forall x :: x in s[1..] ==> x in s;
      FilterTwice(s[1..], p, q, r);
      FilterAppend(if p(s[0]) then [s[0]] else [], Filter(s[1..], p), q);
    }
  }

  /** A filter that keeps every row `q` holds of does not change the first such row. */
  lemma {:induction false} FirstWhereFilter<T(!new)>(s: seq<T>, p: T -> bool, q: T -> bool)
    requires forall x :: x in s && q(x) ==> p(x)
    ensures FirstWhere(Filter(s, p), q) == FirstWhere(s, q)
  {
    if s != [] {
      assert forall x :: x in s[1..] ==> x in s;
      FirstWhereFilter(s[1..], p, q);
      if p(s[0]) {
        assert Filter(s, p) == [s[0]] + Filter(s[1..], p);
        assert ([s[0]] + Filter(s[1..], p))[1..] == Filter(s[1..], p);
      } else {
        assert Filter(s, p) == Filter(s[1..], p);
      }
    }
  }

  /** No two of the definitions share a name. */
  predicate DistinctNames(defs: seq<FieldDef>)
  {
    forall i, j :: 0 <= i < j < |defs| ==> defs[i].name != defs[j].name
  }

  /** The names of `$fieldDefinitions`, in order. */
  const DefinitionNameList: seq<string> := [
    "CPF", "Telefone", "Data de Nascimento", "Gênero", "Raça/Cor", "Nome Social", "Logradouro", "Número",
    "Complemento", "Bairro", "CEP", "Município", "Estado", "Nome da IES", "Nome da Escola",
    "Rede da Escola", "Número do NAP", "Curso", "Setor GTI", "Sistema Responsável",
    "Região Responsável", "Departamento", "Função na EAA"]

  lemma NameListDistinct()
    ensures forall i, j :: 0 <= i < j < |DefinitionNameList| ==> DefinitionNameList[i] != DefinitionNameList[j]
  {
  }

  /** No two definitions share a name, so removing one definition's field leaves the others' first matches alone. */
  lemma DefinitionNamesDistinct()
    ensures DistinctNames(Definitions)
  {
    NameListDistinct();
    assert |Definitions| == |DefinitionNameList|;
    forall i, j | 0 <= i < j < |Definitions|
      ensures Definitions[i].name != Definitions[j].name
    {
      assert Definitions[i].name == DefinitionNameList[i] && Definitions[j].name == DefinitionNameList[j];
    }
  }

  // ---------------------------------------------------------------------
  // Seeding through `xprofile_insert_field`
  // ---------------------------------------------------------------------

  /** `get_option($key, false)` read as an id, 0 for none. */
  function IdIn(options: map<string, nat>, key: string): nat
  {
    if key in options then options[key] else 0
  }

  /** Two option caches agree on a key: both lack it, or both hold the same id. */
  predicate SameAt(options: map<string, nat>, options0: map<string, nat>, key: string)
  {
    (key in options <==> key in options0) && (key in options ==> options[key] == options0[key])
  }

  /** No two of the definitions share a key. */
  predicate DistinctDefKeys(defs: seq<FieldDef>)
  {
    forall i, j :: 0 <= i < j < |defs| ==> defs[i].key != defs[j].key
  }

  /** Distinct definition keys are cached under distinct options. */
  lemma OptionKeyInjective(a: string, b: string)
    ensures OptionKey(a) == OptionKey(b) ==> a == b
  {
    if OptionKey(a) == OptionKey(b) {
      assert a == OptionKey(a)[|OptionPrefix|..];
      assert b == OptionKey(b)[|OptionPrefix|..];
    }
  }

  /**
   * The id `createOrUpdateField` knows before calling the API: the cached
   * one, else (with the tables) the first top-level field of that name in
   * the group.
   */
  function KnownIdIn(options: map<string, nat>, fields: seq<FieldRow>, installed: bool, def: FieldDef, groupId: nat): nat
  {
    if IdIn(options, OptionKey(def.key)) != 0 then IdIn(options, OptionKey(def.key))
    else if installed then IdOf(FirstWhere(fields, TopLevelNamed(def.name, groupId)))
    else 0
  }

  /** The known id of each definition, all read from the same tables. */
  function KnownIds(defs: seq<FieldDef>, options: map<string, nat>, fields: seq<FieldRow>, installed: bool, groupId: nat): (ks: seq<nat>)
    ensures |ks| == |defs|
    ensures forall i :: 0 <= i < |defs| ==> ks[i] == KnownIdIn(options, fields, installed, defs[i], groupId)
  {
    seq(|defs|, i requires 0 <= i < |defs| => KnownIdIn(options, fields, installed, defs[i], groupId))
  }

  /** The result of the API branch: the error's message, or success, created exactly when no id was known. */
  function ApiResult(answer: ApiAnswer, knownId: nat): FieldResult
  {
    match answer
    case WpError(message) => FieldResult(false, false, message)
    case Inserted(id) => FieldResult(true, ApiCreated(knownId, id), "")
  }

  /** The rows the API branch adds: a select box's options under the new id, from the next id on. */
  function ApiRows(def: FieldDef, answer: ApiAnswer, next: nat): seq<FieldRow>
  {
    if answer.Inserted? && HasOptions(def) then OptionRows(next, answer.id, def.options) else []
  }

  /** The id cached for the definition after the API branch: the new id, or on an error the known one. */
  function ApiCached(answer: ApiAnswer, knownId: nat): nat
  {
    if answer.Inserted? then answer.id else knownId
  }

  /**
   * One call of the API branch, on tables given as values: the result, the
   * fields with the added option rows, the next id, the definition's cached
   * id, and every other option untouched.
   */
  ghost predicate ApiAnsweredIn(fields: seq<FieldRow>, next: nat, options: map<string, nat>, def: FieldDef,
                          insert: (string, nat) -> ApiAnswer, knownId: nat, r: FieldResult,
                          fields0: seq<FieldRow>, next0: nat, options0: map<string, nat>)
  {
    var answer := insert(def.key, knownId);
    r == ApiResult(answer, knownId)
    && fields == fields0 + ApiRows(def, answer, next0)
    && next == next0 + |ApiRows(def, answer, next0)|
    && IdIn(options, OptionKey(def.key)) == ApiCached(answer, knownId)
    && forall k :: k != OptionKey(def.key) ==> SameAt(options, options0, k)
  }

  /** The rows the API path of `seed` adds over `defs`, each definition answered for its known id. */
  function ApiSeedRows(defs: seq<FieldDef>, insert: (string, nat) -> ApiAnswer, known: seq<nat>, next: nat): seq<FieldRow>
    requires |known| == |defs|
  {
    if defs == [] then []
    else
      var n := |defs| - 1;
      var prev := ApiSeedRows(defs[..n], insert, known[..n], next);
      prev + ApiRows(defs[n], insert(defs[n].key, known[n]), next + |prev|)
  }

  /** Each result of the API path is the API's answer for the id known beforehand. */
  ghost predicate ApiSeedResultsIn(defs: seq<FieldDef>, insert: (string, nat) -> ApiAnswer, known: seq<nat>, results: seq<FieldResult>)
  {
    |known| == |defs| && |results| == |defs|
    && forall i :: 0 <= i < |defs| ==> results[i] == ApiResult(insert(defs[i].key, known[i]), known[i])
  }

  /** Each definition caches its answered (or known) id, and no other option changes. */
  ghost predicate ApiSeedCachedIn(options: map<string, nat>, defs: seq<FieldDef>, insert: (string, nat) -> ApiAnswer,
                                  known: seq<nat>, options0: map<string, nat>)
  {
    |known| == |defs|
    && (forall i :: 0 <= i < |defs| ==> IdIn(options, OptionKey(defs[i].key)) == ApiCached(insert(defs[i].key, known[i]), known[i]))
    && (forall k :: (forall i :: 0 <= i < |defs| ==> k != OptionKey(defs[i].key)) ==> SameAt(options, options0, k))
  }

  /** The fields gain exactly each inserted select box's options, in order, and the next id moves past them. */
  ghost predicate ApiSeedFieldsIn(fields: seq<FieldRow>, next: nat, defs: seq<FieldDef>, insert: (string, nat) -> ApiAnswer,
                                  known: seq<nat>, fields0: seq<FieldRow>, next0: nat)
  {
    |known| == |defs|
    && fields == fields0 + ApiSeedRows(defs, insert, known, next0)
    && next == next0 + |ApiSeedRows(defs, insert, known, next0)|
  }

  /** The API path of `seed` over `defs`, against the tables before it. */
  ghost predicate ApiSeededIn(fields: seq<FieldRow>, next: nat, options: map<string, nat>, defs: seq<FieldDef>,
                        insert: (string, nat) -> ApiAnswer, known: seq<nat>, results: seq<FieldResult>,
                        fields0: seq<FieldRow>, next0: nat, options0: map<string, nat>)
  {
    ApiSeedResultsIn(defs, insert, known, results)
    && ApiSeedCachedIn(options, defs, insert, known, options0)
    && ApiSeedFieldsIn(fields, next, defs, insert, known, fields0, next0)
  }

  /** The rows the API path adds are options, outside every group. */
  lemma {:induction false} ApiSeedRowsUngrouped(defs: seq<FieldDef>, insert: (string, nat) -> ApiAnswer, known: seq<nat>, next: nat)
    requires |known| == |defs|
    ensures forall x :: x in ApiSeedRows(defs, insert, known, next) ==> x.groupId == 0
  {
    if defs != [] {
      var n := |defs| - 1;
      var prev := ApiSeedRows(defs[..n], insert, known[..n], next);
      ApiSeedRowsUngrouped(defs[..n], insert, known[..n], next);
      var answer := insert(defs[n].key, known[n]);
      if answer.Inserted? && HasOptions(defs[n]) {
        OptionRowsShape(next + |prev|, answer.id, defs[n].options);
      }
    }
  }

  /** Rows appended after the tables that `p` never holds of leave the first match alone. */
  lemma {:induction false} FirstWhereAppendMiss<T(!new)>(a: seq<T>, b: seq<T>, p: T -> bool)
    requires forall x :: x in b ==> !p(x)
    ensures FirstWhere(a + b, p) == FirstWhere(a, p)
  {
    if a == [] {
      assert a + b == b;
    } else {
      assert (a + b)[1..] == a[1..] + b;
      FirstWhereAppendMiss(a[1..], b, p);
    }
  }

  /**
   * Midway through the API path, the next definition's known id is the one
   * read from the tables before `seed`: its option is untouched (the keys
   * are distinct), and the added option rows lie outside the group.
   */
  lemma KnownAtStep(defs: seq<FieldDef>, insert: (string, nat) -> ApiAnswer, results: seq<FieldResult>,
                    fields0: seq<FieldRow>, next0: nat, options0: map<string, nat>, installed: bool, groupId: nat,
                    fields: seq<FieldRow>, next: nat, options: map<string, nat>, i: nat)
    requires i < |defs| && DistinctDefKeys(defs) && groupId != 0
    requires ApiSeededIn(fields, next, options, defs[..i], insert, KnownIds(defs, options0, fields0, installed, groupId)[..i],
                         results, fields0, next0, options0)
    ensures KnownIdIn(options, fields, installed, defs[i], groupId) == KnownIds(defs, options0, fields0, installed, groupId)[i]
  {
    var known := KnownIds(defs, options0, fields0, installed, groupId);
    var key := OptionKey(defs[i].key);
    forall j | 0 <= j < |defs[..i]|
      ensures key != OptionKey(defs[..i][j].key)
    {
      OptionKeyInjective(defs[i].key, defs[j].key);
    }
    assert SameAt(options, options0, key);
    ApiSeedRowsUngrouped(defs[..i], insert, known[..i], next0);
    FirstWhereAppendMiss(fields0, ApiSeedRows(defs[..i], insert, known[..i], next0), TopLevelNamed(defs[i].name, groupId));
  }

  /** Concatenation regroups, stated once over any element type. */
  lemma AppendAssociative<T>(a: seq<T>, b: seq<T>, c: seq<T>)
    ensures (a + b) + c == a + (b + c)
  {
  }

  /** The rows of one more definition: the rows so far and what its answer adds, under the next ids. */
  lemma ApiSeedRowsSnoc(ds: seq<FieldDef>, d: FieldDef, insert: (string, nat) -> ApiAnswer, ks: seq<nat>, kn: nat, next: nat)
    requires |ks| == |ds|
    ensures var prev := ApiSeedRows(ds, insert, ks, next);
      ApiSeedRows(ds + [d], insert, ks + [kn], next) == prev + ApiRows(d, insert(d.key, kn), next + |prev|)
  {
    var s, t := ds + [d], ks + [kn];
    assert s[..|s| - 1] == ds && t[..|t| - 1] == ks;
    assert s[|s| - 1] == d && t[|t| - 1] == kn;
    var front := ApiSeedRows(s[..|s| - 1], insert, t[..|t| - 1], next);
    assert ApiSeedRows(s, insert, t, next) == front + ApiRows(s[|s| - 1], insert(s[|s| - 1].key, t[|t| - 1]), next + |front|);
    assert front == ApiSeedRows(ds, insert, ks, next);
  }

  /** One more definition through the API: the fields so far and what its answer adds. */
  lemma ApiFieldsSnoc(ds: seq<FieldDef>, d: FieldDef, insert: (string, nat) -> ApiAnswer, ks: seq<nat>, kn: nat,
                      fields0: seq<FieldRow>, next0: nat, fields1: seq<FieldRow>, next1: nat, fields2: seq<FieldRow>, next2: nat)
    requires ApiSeedFieldsIn(fields1, next1, ds, insert, ks, fields0, next0)
    requires fields2 == fields1 + ApiRows(d, insert(d.key, kn), next1)
    requires next2 == next1 + |ApiRows(d, insert(d.key, kn), next1)|
    ensures ApiSeedFieldsIn(fields2, next2, ds + [d], insert, ks + [kn], fields0, next0)
  {
    var prev := ApiSeedRows(ds, insert, ks, next0);
    var added := ApiRows(d, insert(d.key, kn), next1);
    ApiSeedRowsSnoc(ds, d, insert, ks, kn, next0);
    AppendAssociative(fields0, prev, added);
  }

  /** One more definition through the API: the results so far and its own answer. */
  lemma ApiResultsSnoc(ds: seq<FieldDef>, d: FieldDef, insert: (string, nat) -> ApiAnswer, ks: seq<nat>, kn: nat,
                       rs: seq<FieldResult>, r: FieldResult)
    requires ApiSeedResultsIn(ds, insert, ks, rs)
    requires r == ApiResult(insert(d.key, kn), kn)
    ensures ApiSeedResultsIn(ds + [d], insert, ks + [kn], rs + [r])
  {
    forall j | 0 <= j < |ds + [d]|
      ensures (rs + [r])[j] == ApiResult(insert((ds + [d])[j].key, (ks + [kn])[j]), (ks + [kn])[j])
    {
      if j < |ds| {
        assert (rs + [r])[j] == rs[j] && (ds + [d])[j] == ds[j] && (ks + [kn])[j] == ks[j];
      }
    }
  }

  /** One more definition through the API: its option holds its id, the earlier ones keep theirs, and no other option changes. */
  lemma ApiCachedSnoc(ds: seq<FieldDef>, d: FieldDef, insert: (string, nat) -> ApiAnswer, ks: seq<nat>, kn: nat,
                      options0: map<string, nat>, options1: map<string, nat>, options2: map<string, nat>)
    requires forall j :: 0 <= j < |ds| ==> ds[j].key != d.key
    requires ApiSeedCachedIn(options1, ds, insert, ks, options0)
    requires IdIn(options2, OptionKey(d.key)) == ApiCached(insert(d.key, kn), kn)
    requires forall k :: k != OptionKey(d.key) ==> SameAt(options2, options1, k)
    ensures ApiSeedCachedIn(options2, ds + [d], insert, ks + [kn], options0)
  {
    forall j | 0 <= j < |ds + [d]|
      ensures IdIn(options2, OptionKey((ds + [d])[j].key)) == ApiCached(insert((ds + [d])[j].key, (ks + [kn])[j]), (ks + [kn])[j])
    {
      if j < |ds| {
        assert (ds + [d])[j] == ds[j] && (ks + [kn])[j] == ks[j];
        OptionKeyInjective(d.key, ds[j].key);
        assert SameAt(options2, options1, OptionKey(ds[j].key));
      }
    }
    forall k | forall j :: 0 <= j < |ds + [d]| ==> k != OptionKey((ds + [d])[j].key)
      ensures SameAt(options2, options0, k)
    {
      assert (ds + [d])[|ds|] == d;
      forall j | 0 <= j < |ds|
        ensures k != OptionKey(ds[j].key)
      {
        assert (ds + [d])[j] == ds[j];
      }
      assert SameAt(options2, options1, k) && SameAt(options1, options0, k);
    }
  }

  /** One more definition through the API keeps the closed form of the API path. */
  lemma ApiSeedStep(ds: seq<FieldDef>, d: FieldDef, insert: (string, nat) -> ApiAnswer, ks: seq<nat>, kn: nat, rs: seq<FieldResult>,
                    fields0: seq<FieldRow>, next0: nat, options0: map<string, nat>,
                    fields1: seq<FieldRow>, next1: nat, options1: map<string, nat>, r: FieldResult,
                    fields2: seq<FieldRow>, next2: nat, options2: map<string, nat>)
    requires forall j :: 0 <= j < |ds| ==> ds[j].key != d.key
    requires ApiSeededIn(fields1, next1, options1, ds, insert, ks, rs, fields0, next0, options0)
    requires ApiAnsweredIn(fields2, next2, options2, d, insert, kn, r, fields1, next1, options1)
    ensures ApiSeededIn(fields2, next2, options2, ds + [d], insert, ks + [kn], rs + [r], fields0, next0, options0)
  {
    ApiFieldsSnoc(ds, d, insert, ks, kn, fields0, next0, fields1, next1, fields2, next2);
    ApiResultsSnoc(ds, d, insert, ks, kn, rs, r);
    ApiCachedSnoc(ds, d, insert, ks, kn, options0, options1, options2);
  }

  /** The id of the plugin's group as `seed` obtains it: the existing one, or the next id when it is inserted. */
  function SeedGroupId(groups: seq<GroupRow>, nextGroupId: nat): nat
  {
    match FirstWhere(groups, GroupNamed(GroupName))
    case Some(g) => g.id
    case None => nextGroupId
  }

  /** The xProfile tables and the option cache. */
  class Tables {
    var installed: bool
    var groups: seq<GroupRow>
    var fields: seq<FieldRow>
    var data: seq<DataRow>
    var options: map<string, nat>
    var nextGroupId: nat
    var nextFieldId: nat

    /** Ids are positive, below the next id, and name one row each. */
    predicate Valid()
      reads this`groups, this`fields, this`nextGroupId, this`nextFieldId
    {
      nextGroupId > 0 && nextFieldId > 0
      && (forall g :: g in groups ==> 0 < g.id < nextGroupId)
      && (forall g, h :: g in groups && h in groups && g.id == h.id ==> g == h)
      && FieldIds(fields, nextFieldId)
    }

    constructor(installed: bool)
      ensures Valid() && this.installed == installed
      ensures groups == [] && fields == [] && data == [] && options == map[]
    {
      this.installed := installed;
      groups := [];
      fields := [];
      data := [];
      options := map[];
      nextGroupId := 1;
      nextFieldId := 1;
    }

    /** `get_option($key, false)` read as an id, 0 for none. */
    function OptionId(key: string): nat
      reads this
    {
      IdIn(options, key)
    }

    /** The id `createOrUpdateField` knows before calling the API: the cached one, else a top-level field of that name in the group. */
    function KnownId(def: FieldDef, groupId: nat): nat
      reads this
    {
      KnownIdIn(options, fields, installed, def, groupId)
    }

    /**
     * `getOrCreateFieldGroup`: 0 (false) without the tables; the existing
     * group's id when one has the name; otherwise a new group, or 0 when
     * the insert fails. A second group of that name is never created.
     */
    method GetOrCreateFieldGroup(insertOk: bool) returns (groupId: nat)
      requires Valid()
      modifies this
      ensures Valid()
      ensures fields == old(fields) && data == old(data) && options == old(options) && installed == old(installed)
      ensures nextFieldId == old(nextFieldId)
      ensures !installed ==> groupId == 0 && groups == old(groups) && nextGroupId == old(nextGroupId)
      ensures installed && FirstWhere(old(groups), GroupNamed(GroupName)).Some? ==>
        groupId == FirstWhere(old(groups), GroupNamed(GroupName)).value.id && groups == old(groups) && nextGroupId == old(nextGroupId)
      ensures installed && FirstWhere(old(groups), GroupNamed(GroupName)).None? ==>
        if insertOk then groupId == old(nextGroupId) && nextGroupId == old(nextGroupId) + 1
          && groups == old(groups) + [GroupRow(old(nextGroupId), GroupName, GroupDescription, 1, false)]
        else groupId == 0 && groups == old(groups) && nextGroupId == old(nextGroupId)
      ensures groupId != 0 ==> exists g :: g in groups && g.id == groupId && g.name == GroupName
    {
      if !installed {
        return 0;
      }
      var existing := FirstWhere(groups, GroupNamed(GroupName));
      if existing.Some? {
        return existing.value.id;
      }
      if !insertOk {
        return 0;
      }
      groupId := nextGroupId;
      groups := groups + [GroupRow(groupId, GroupName, GroupDescription, 1, false)];
      nextGroupId := nextGroupId + 1;
      assert groups[|groups| - 1] in groups;
    }

    /** `createFieldOptions`: one option row per entry, numbered from 1 in order. */
    method CreateFieldOptions(fieldId: nat, opts: seq<(string, string)>)
      requires Valid()
      modifies this
      ensures Valid()
      ensures fields == old(fields) + OptionRows(old(nextFieldId), fieldId, opts)
      ensures nextFieldId == old(nextFieldId) + |opts|
      ensures groups == old(groups) && data == old(data) && options == old(options) && installed == old(installed)
      ensures nextGroupId == old(nextGroupId)
    {
      fields, nextFieldId := AppendOptionRows(fields, nextFieldId, fieldId, opts);
    }

    /** The loop of `createFieldOptions`: one row per option, under the next ids in turn. */
    static method AppendOptionRows(rows0: seq<FieldRow>, next0: nat, fieldId: nat, opts: seq<(string, string)>)
      returns (rows: seq<FieldRow>, next: nat)
      requires next0 > 0 && FieldIds(rows0, next0)
      ensures rows == rows0 + OptionRows(next0, fieldId, opts) && next == next0 + |opts|
      ensures FieldIds(rows, next)
    {
      rows, next := rows0, next0;
      var order := 0;
      while order < |opts|
        invariant 0 <= order <= |opts|
        invariant rows == rows0 + OptionRows(next0, fieldId, opts[..order])
        invariant next == next0 + order
        invariant FieldIds(rows, next)
      {
        var row := OptionRow(next, fieldId, opts[order].1, order + 1);
        OptionStep(rows0, next0, fieldId, opts, order, rows);
        rows := rows + [row];
        next := next + 1;
        order := order + 1;
      }
      assert opts[..order] == opts;
    }

    /** `updateFieldOptions`: the field's option rows are deleted and created again. */
    method UpdateFieldOptions(fieldId: nat, opts: seq<(string, string)>)
      requires Valid()
      modifies this
      ensures Valid()
      ensures fields == Filter(old(fields), NotOptionOf(fieldId)) + OptionRows(old(nextFieldId), fieldId, opts)
      ensures Filter(fields, OptionOf(fieldId)) == OptionRows(old(nextFieldId), fieldId, opts)
      ensures nextFieldId == old(nextFieldId) + |opts|
      ensures groups == old(groups) && data == old(data) && options == old(options) && installed == old(installed)
      ensures nextGroupId == old(nextGroupId)
    {
      fields := Filter(fields, NotOptionOf(fieldId));
      CreateFieldOptions(fieldId, opts);
      OptionsAfterUpdate(old(fields), old(nextFieldId), fieldId, opts);
    }

    /**
     * `getFieldId`: the cached id; otherwise 0 (false) for a key without a
     * definition; otherwise the first field of the definition's name, whose
     * id is then cached.
     */
    method GetFieldId(key: string) returns (id: nat)
      modifies this
      ensures groups == old(groups) && fields == old(fields) && data == old(data) && installed == old(installed)
      ensures nextGroupId == old(nextGroupId) && nextFieldId == old(nextFieldId)
      ensures old(OptionId(OptionKey(key))) != 0 ==> id == old(OptionId(OptionKey(key))) && options == old(options)
      ensures old(OptionId(OptionKey(key))) == 0 && (DefinitionOf(key).None? || !installed) ==> id == 0 && options == old(options)
      ensures old(OptionId(OptionKey(key))) == 0 && DefinitionOf(key).Some? && installed ==>
        id == IdOf(FirstWhere(fields, NamedField(DefinitionOf(key).value.name)))
        && options == if id != 0 then old(options)[OptionKey(key) := id] else old(options)
    {
      id := OptionId(OptionKey(key));
      if id != 0 {
        return;
      }
      var def := DefinitionOf(key);
      if def.None? || !installed {
        return 0;
      }
      id := IdOf(FirstWhere(fields, NamedField(def.value.name)));
      if id != 0 {
        options := options[OptionKey(key) := id];
      }
    }

    /**
     * `createOrUpdateField`. With the API, the field id known beforehand
     * (cached, or found by name in the group and then cached) is passed to
     * `xprofile_insert_field`; its answer is cached, options are created for
     * a select box, and the field counts as created exactly when no id was
     * known. Without the API, a row of that name in the group is updated
     * (options re-created) or a new row inserted (options created, id
     * cached); a failed write reports `dbError`.
     */
    method CreateOrUpdateField(groupId: nat, def: FieldDef, api: FieldApi, dbOk: bool, dbError: string)
      returns (r: FieldResult)
      requires Valid()
      modifies this
      ensures Valid()
      ensures groups == old(groups) && data == old(data) && installed == old(installed) && nextGroupId == old(nextGroupId)
      ensures api.FieldApi? ==> ApiAnswered(def, api, old(KnownId(def, groupId)), r, old(fields), old(nextFieldId), old(options))
      ensures api.NoFieldApi? ==> TablesAnswered(groupId, def, dbOk, dbError, r, old(fields), old(nextFieldId))
    {
      var fieldId := CacheKnownId(def, groupId);
      if api.FieldApi? {
        ghost var options1 := options;
        r := CreateThroughApi(def, api, fieldId);
        forall k | k != OptionKey(def.key)
          ensures SameAt(options, old(options), k)
        {
          assert SameAt(options, options1, k);
        }
      } else {
        r := CreateInTables(groupId, def, dbOk, dbError);
      }
    }

    /**
     * The API branch's outcome, against the tables before it: an error
     * answers its message and changes no field; an inserted field answers
     * success, created exactly when no id was known, caches the new id and
     * adds a select box's options under it; no other option changes.
     */
    ghost predicate ApiAnswered(def: FieldDef, api: FieldApi, knownId: nat, r: FieldResult, fields0: seq<FieldRow>, nextFieldId0: nat,
                                options0: map<string, nat>)
      requires api.FieldApi?
      reads this
    {
      ApiAnsweredIn(fields, nextFieldId, options, def, api.insert, knownId, r, fields0, nextFieldId0, options0)
    }

    /**
     * The fallback's outcome, against the fields before it: without the
     * tables or the database the error and no change; the field of that
     * name in the group updated in place; otherwise a new field row, its
     * options after it, and its id cached.
     */
    ghost predicate TablesAnswered(groupId: nat, def: FieldDef, dbOk: bool, dbError: string, r: FieldResult,
                                   fields0: seq<FieldRow>, nextFieldId0: nat)
      reads this
    {
      (!installed || !dbOk ==> r == FieldResult(false, false, dbError) && fields == fields0)
      && (installed && dbOk && FirstWhere(fields0, NamedInGroup(def.name, groupId)).Some? ==>
            var id := FirstWhere(fields0, NamedInGroup(def.name, groupId)).value.id;
            r == FieldResult(true, false, "")
            && DefinitionRow(id, groupId, def) in fields
            && (HasOptions(def) ==> Filter(fields, OptionOf(id)) == OptionRows(nextFieldId0, id, def.options))
            && (!HasOptions(def) ==> fields == ReplaceRow(fields0, id, DefinitionRow(id, groupId, def))))
      && (installed && dbOk && FirstWhere(fields0, NamedInGroup(def.name, groupId)).None? ==>
            r == FieldResult(true, true, "")
            && fields == fields0 + [DefinitionRow(nextFieldId0, groupId, def)]
                 + (if HasOptions(def) then OptionRows(nextFieldId0 + 1, nextFieldId0, def.options) else [])
            && OptionId(OptionKey(def.key)) == nextFieldId0)
    }

    /** The branch of `createOrUpdateField` that goes through `xprofile_insert_field`, given the known id. */
    method CreateThroughApi(def: FieldDef, api: FieldApi, knownId: nat) returns (r: FieldResult)
      requires Valid() && api.FieldApi? && OptionId(OptionKey(def.key)) == knownId
      modifies this
      ensures Valid()
      ensures groups == old(groups) && data == old(data) && installed == old(installed) && nextGroupId == old(nextGroupId)
      ensures ApiAnswered(def, api, knownId, r, old(fields), old(nextFieldId), old(options))
    {
      var answer := api.insert(def.key, knownId);
      if answer.WpError? {
        r := FieldResult(false, false, answer.message);
        assert forall k :: SameAt(options, old(options), k);
        return;
      }
      var fieldId := answer.id;
      if HasOptions(def) {
        CreateFieldOptions(fieldId, def.options);
        OptionRowsShape(old(nextFieldId), fieldId, def.options);
      }
      ghost var options1 := options;
      options := options[OptionKey(def.key) := fieldId];
      forall k | k != OptionKey(def.key)
        ensures SameAt(options, old(options), k)
      {
        assert options1 == old(options);
      }
      r := FieldResult(true, ApiCreated(knownId, fieldId), "");
    }

    /** The fallback of `createOrUpdateField` that writes the tables directly: update the field of that name, or insert it. */
    method CreateInTables(groupId: nat, def: FieldDef, dbOk: bool, dbError: string) returns (r: FieldResult)
      requires Valid()
      modifies this
      ensures Valid()
      ensures groups == old(groups) && data == old(data) && installed == old(installed) && nextGroupId == old(nextGroupId)
      ensures TablesAnswered(groupId, def, dbOk, dbError, r, old(fields), old(nextFieldId))
    {
      if !installed || !dbOk {
        return FieldResult(false, false, dbError);
      }
      var existing := FirstWhere(fields, NamedInGroup(def.name, groupId));
      if existing.Some? {
        UpdateFieldRow(existing.value, groupId, def);
        return FieldResult(true, false, "");
      }
      InsertFieldRow(groupId, def);
      r := FieldResult(true, true, "");
    }

    /** The first part of `createOrUpdateField`: the known id, cached when it was found by name. */
    method CacheKnownId(def: FieldDef, groupId: nat) returns (fieldId: nat)
      requires Valid()
      modifies this
      ensures Valid()
      ensures fieldId == old(KnownId(def, groupId)) && OptionId(OptionKey(def.key)) == fieldId
      ensures options == old(options) || options == old(options)[OptionKey(def.key) := fieldId]
      ensures groups == old(groups) && fields == old(fields) && data == old(data) && installed == old(installed)
      ensures nextGroupId == old(nextGroupId) && nextFieldId == old(nextFieldId)
    {
      fieldId := OptionId(OptionKey(def.key));
      if fieldId == 0 && installed {
        fieldId := IdOf(FirstWhere(fields, TopLevelNamed(def.name, groupId)));
        if fieldId != 0 {
          options := options[OptionKey(def.key) := fieldId];
        }
      }
    }

    /** The fallback update: the existing row takes the definition's data, and a select box's options are re-created. */
    method UpdateFieldRow(existing: FieldRow, groupId: nat, def: FieldDef)
      requires Valid() && existing in fields
      modifies this
      ensures Valid()
      ensures DefinitionRow(existing.id, groupId, def) in fields
      ensures HasOptions(def) ==> Filter(fields, OptionOf(existing.id)) == OptionRows(old(nextFieldId), existing.id, def.options)
      ensures !HasOptions(def) ==> fields == ReplaceRow(old(fields), existing.id, DefinitionRow(existing.id, groupId, def))
      ensures groups == old(groups) && data == old(data) && options == old(options) && installed == old(installed)
      ensures nextGroupId == old(nextGroupId)
    {
      var id := existing.id;
      var row := DefinitionRow(id, groupId, def);
      ReplaceFieldRow(existing, row);
      if HasOptions(def) {
        UpdateFieldOptions(id, def.options);
        assert NotOptionOf(id)(row);
      }
    }

    /** `UPDATE ... WHERE id = ...` on an existing row, keeping its id. */
    method ReplaceFieldRow(existing: FieldRow, row: FieldRow)
      requires Valid() && existing in fields && row.id == existing.id
      modifies this
      ensures Valid()
      ensures fields == ReplaceRow(old(fields), existing.id, row) && row in fields
      ensures groups == old(groups) && data == old(data) && options == old(options) && installed == old(installed)
      ensures nextGroupId == old(nextGroupId) && nextFieldId == old(nextFieldId)
    {
      ghost var before := fields;
      fields := ReplaceRow(fields, existing.id, row);
      forall f | f in fields
        ensures (f in before && f.id != existing.id) || f == row
      {
        var i :| 0 <= i < |fields| && fields[i] == f;
        assert before[i] in before;
      }
      ghost var k :| 0 <= k < |before| && before[k] == existing;
      assert fields[k] == row;
    }

    /** The fallback insert: a new row under the next id, its options, and the cached id. */
    method InsertFieldRow(groupId: nat, def: FieldDef)
      requires Valid()
      modifies this
      ensures Valid()
      ensures fields == old(fields) + [DefinitionRow(old(nextFieldId), groupId, def)]
        + (if HasOptions(def) then OptionRows(old(nextFieldId) + 1, old(nextFieldId), def.options) else [])
      ensures options == old(options)[OptionKey(def.key) := old(nextFieldId)]
      ensures groups == old(groups) && data == old(data) && installed == old(installed) && nextGroupId == old(nextGroupId)
    {
      var id := nextFieldId;
      AppendFieldId(fields, DefinitionRow(id, groupId, def), id);
      fields := fields + [DefinitionRow(id, groupId, def)];
      nextFieldId := nextFieldId + 1;
      if HasOptions(def) {
        CreateFieldOptions(id, def.options);
      }
      options := options[OptionKey(def.key) := id];
    }
  
    /**
     * `seed`: only an error without `xprofile_insert_field_group` or
     * without a group; otherwise every definition, in order, through
     * `createOrUpdateField`, with `dbOk` saying whether each fallback write
     * succeeds. `results` are the calls' results, which decide the report.
     */
    method Seed(groupApi: bool, groupInsertOk: bool, api: FieldApi, dbOk: string -> bool, dbError: string)
      returns (report: SeedReport, ghost results: seq<FieldResult>)
      requires Valid()
      modifies this
      ensures Valid()
      ensures !groupApi ==> report == SeedReport([], [], [UnavailableMessage]) && fields == old(fields) && groups == old(groups)
      ensures groupApi && !installed ==> report == SeedReport([], [], [NoGroupMessage]) && fields == old(fields)
      ensures groupApi && installed && FirstWhere(old(groups), GroupNamed(GroupName)).None? && !groupInsertOk ==>
        report == SeedReport([], [], [NoGroupMessage]) && fields == old(fields)
      ensures groupApi && installed && (FirstWhere(old(groups), GroupNamed(GroupName)).Some? || groupInsertOk) ==>
        |results| == |Definitions| && report == ReportOf(DefinitionKeys(), results)
      ensures api.NoFieldApi? ==> forall i :: 0 <= i < |results| && i < |Definitions| ==> FallbackResult(results[i], dbOk(Definitions[i].key), dbError)
      ensures groupApi && installed && (FirstWhere(old(groups), GroupNamed(GroupName)).Some? || groupInsertOk) && api.FieldApi? ==>
        ApiSeededIn(fields, nextFieldId, options, Definitions, api.insert,
                    KnownIds(Definitions, old(options), old(fields), true, SeedGroupId(old(groups), old(nextGroupId))),
                    results, old(fields), old(nextFieldId), old(options))
      ensures data == old(data)
    {
      results := [];
      if !groupApi {
        return SeedReport([], [], [UnavailableMessage]), results;
      }
      var groupId := GetOrCreateFieldGroup(groupInsertOk);
      if groupId == 0 {
        return SeedReport([], [], [NoGroupMessage]), results;
      }
      DefinitionKeysDistinct();
      report, results := SeedDefinitions(groupId, Definitions, api, dbOk, dbError);
    }

    /** The loop of `seed`: each definition in turn, each result stepping the report. */
    method SeedDefinitions(groupId: nat, defs: seq<FieldDef>, api: FieldApi, dbOk: string -> bool, dbError: string)
      returns (report: SeedReport, ghost results: seq<FieldResult>)
      requires Valid() && installed && groupId != 0 && DistinctDefKeys(defs)
      modifies this
      ensures Valid() && installed && groups == old(groups) && data == old(data) && nextGroupId == old(nextGroupId)
      ensures |results| == |defs| && report == ReportOf(KeysOf(defs), results)
      ensures api.NoFieldApi? ==> forall i :: 0 <= i < |defs| ==> FallbackResult(results[i], dbOk(defs[i].key), dbError)
      ensures api.FieldApi? ==>
        ApiSeededIn(fields, nextFieldId, options, defs, api.insert, KnownIds(defs, old(options), old(fields), true, groupId),
                    results, old(fields), old(nextFieldId), old(options))
    {
      report := SeedReport([], [], []);
      results := [];
      ghost var keys := KeysOf(defs);
      ghost var known := KnownIds(defs, options, fields, true, groupId);
      assert defs[..0] == [] && known[..0] == [] && fields + [] == fields;
      var i := 0;
      while i < |defs|
        invariant 0 <= i <= |defs| && Valid() && installed
        invariant groups == old(groups) && data == old(data) && nextGroupId == old(nextGroupId)
        invariant |results| == i
        invariant report == ReportOf(keys[..i], results)
        invariant api.NoFieldApi? ==> forall j :: 0 <= j < i ==> FallbackResult(results[j], dbOk(defs[j].key), dbError)
        invariant api.FieldApi? ==>
          ApiSeededIn(fields, nextFieldId, options, defs[..i], api.insert, known[..i], results, old(fields), old(nextFieldId), old(options))
      {
        var def := defs[i];
        var r := SeedNext(groupId, defs, i, api, dbOk, dbError, known, results, old(fields), old(nextFieldId), old(options));
        ReportOfSnoc(keys, results, r);
        if api.NoFieldApi? {
          FallbackSnoc(defs, results, r, dbOk, dbError);
        }
        results := results + [r];
        report := SeedStep(report, def.key, r);
        i := i + 1;
      }
      assert keys[..i] == keys && defs[..i] == defs && known[..i] == known;
    }

    /** The `i`-th iteration of `seed`'s loop, keeping the closed form of the API path. */
    method SeedNext(groupId: nat, defs: seq<FieldDef>, i: nat, api: FieldApi, dbOk: string -> bool, dbError: string,
                    ghost known: seq<nat>, ghost results: seq<FieldResult>,
                    ghost fields0: seq<FieldRow>, ghost next0: nat, ghost options0: map<string, nat>)
      returns (r: FieldResult)
      requires Valid() && installed && groupId != 0 && DistinctDefKeys(defs) && i < |defs|
      requires known == KnownIds(defs, options0, fields0, true, groupId)
      requires api.FieldApi? ==> ApiSeededIn(fields, nextFieldId, options, defs[..i], api.insert, known[..i], results, fields0, next0, options0)
      modifies this
      ensures Valid() && installed && groups == old(groups) && data == old(data) && nextGroupId == old(nextGroupId)
      ensures api.NoFieldApi? ==> FallbackResult(r, dbOk(defs[i].key), dbError)
      ensures api.FieldApi? ==>
        ApiSeededIn(fields, nextFieldId, options, defs[..i + 1], api.insert, known[..i + 1], results + [r], fields0, next0, options0)
    {
      if api.FieldApi? {
        KnownAtStep(defs, api.insert, results, fields0, next0, options0, true, groupId, fields, nextFieldId, options, i);
      }
      r := SeedField(groupId, defs[i], api, dbOk(defs[i].key), dbError);
      if api.FieldApi? {
        forall j | 0 <= j < |defs[..i]|
          ensures defs[..i][j].key != defs[i].key
        {
          assert defs[..i][j] == defs[j];
        }
        ApiSeedStep(defs[..i], defs[i], api.insert, known[..i], known[i], results, fields0, next0, options0,
                    old(fields), old(nextFieldId), old(options), r, fields, nextFieldId, options);
        assert defs[..i + 1] == defs[..i] + [defs[i]] && known[..i + 1] == known[..i] + [known[i]];
      }
    }

    /**
     * One iteration of `seed`: `createOrUpdateField` for one definition.
     * Without the field API, on installed tables, the field is written
     * exactly when the database write succeeds, and a failure reports the
     * database's error.
     */
    method SeedField(groupId: nat, def: FieldDef, api: FieldApi, dbOk: bool, dbError: string) returns (r: FieldResult)
      requires Valid()
      modifies this
      ensures Valid() && installed == old(installed) && groups == old(groups) && data == old(data) && nextGroupId == old(nextGroupId)
      ensures api.FieldApi? ==> ApiAnswered(def, api, old(KnownId(def, groupId)), r, old(fields), old(nextFieldId), old(options))
      ensures api.NoFieldApi? ==> TablesAnswered(groupId, def, dbOk, dbError, r, old(fields), old(nextFieldId))
      ensures api.NoFieldApi? && installed ==> FallbackResult(r, dbOk, dbError)
    {
      r := CreateOrUpdateField(groupId, def, api, dbOk, dbError);
    }

    /**
     * Deletes every row whose parent is the field (its options), the field's
     * data, and then, when the write succeeds, the field's own row;
     * `deleted` says whether that last write removed a row.
     */
    method DeleteField(id: nat, ok: bool) returns (deleted: bool)
      requires Valid()
      modifies this
      ensures Valid()
      ensures fields == Filter(old(fields), Surviving(id, ok))
      ensures forall x :: x in data <==> x in old(data) && x.fieldId != id
      ensures deleted <==> ok && exists f :: f in old(fields) && f.parentId != id && f.id == id
      ensures groups == old(groups) && options == old(options) && installed == old(installed)
      ensures nextGroupId == old(nextGroupId) && nextFieldId == old(nextFieldId)
    {
      ghost var fields0 := fields;
      var notOption := (f: FieldRow) => f.parentId != id;
      fields := Filter(fields, notOption);
      data := Filter(data, (x: DataRow) => x.fieldId != id);
      if ok {
        deleted := FirstWhere(fields, (f: FieldRow) => f.id == id).Some?;
        var notField := (f: FieldRow) => f.id != id;
        fields := Filter(fields, notField);
        FilterTwice(fields0, notOption, notField, Surviving(id, ok));
      } else {
        deleted := false;
        FilterSame(fields0, notOption, Surviving(id, ok));
      }
    }

    /**
     * `removeExistingFields`, with the option of each removed field deleted
     * under its definition key. `deleteOk` says whether deleting a field's
     * row succeeds. Without the tables only an error is returned. Otherwise
     * the fields of the plugin's group are removed with the group, and then
     * every top-level field carrying a definition's name, unless its group
     * is one of BuddyBoss's own: those fields and their data are kept.
     */
    method RemoveExistingFields(deleteOk: nat -> bool) returns (report: RemoveReport)
      requires Valid()
      modifies this
      ensures Valid()
      ensures !installed ==> report == RemoveReport([], [UnavailableMessage]) && fields == old(fields) && groups == old(groups) && data == old(data)
      ensures installed ==> report == RemovalReport(old(fields), old(groups), deleteOk)
      ensures installed ==> forall f :: f in old(fields) ==>
        (f.id !in RemovalIds(old(fields), old(groups), deleteOk) && f.parentId !in RemovalIds(old(fields), old(groups), deleteOk) ==> f in fields)
      ensures installed ==> forall x :: x in old(data) && x.fieldId !in RemovalIds(old(fields), old(groups), deleteOk) ==> x in data
      ensures installed ==> TargetsGone(FieldsAfter(old(fields), old(groups), deleteOk), GroupsAfter(old(groups)), deleteOk, Definitions, fields)
      ensures forall f :: f in old(fields) && f.parentId == 0 && InNativeGroup(old(groups), f) ==> f in fields
      ensures forall x :: x in old(data) && (exists f :: f in old(fields) && f.id == x.fieldId && f.parentId == 0 && InNativeGroup(old(groups), f)) ==> x in data
      ensures forall f :: f in fields ==> f in old(fields)
      ensures forall g :: g in old(groups) && g.name != GroupName ==> g in groups
      ensures forall k :: k in options ==> k in old(options) && options[k] == old(options)[k]
      ensures forall n :: n in report.removed && RemovedOptionKey(n).Some? ==> RemovedOptionKey(n).value !in options
      ensures installed && FirstWhere(old(groups), GroupNamed(GroupName)).Some? ==>
        var fpse := FirstWhere(old(groups), GroupNamed(GroupName)).value;
        fpse !in groups && forall h :: h in fields && h.groupId == fpse.id && h.parentId == 0 ==> !deleteOk(h.id)
      ensures installed && (forall g, h :: g in old(groups) && h in old(groups) && g.name == GroupName && h.name == GroupName ==> g == h) ==>
        forall g :: g in groups ==> g.name != GroupName
    {
      if !installed {
        return RemoveReport([], [UnavailableMessage]);
      }
      ghost var ids;
      ids, report := RemovePluginGroup(deleteOk);
      ghost var fields1, groups1 := FieldsAfter(old(fields), old(groups), deleteOk), GroupsAfter(old(groups));
      ids, report := RemoveNamedFields(deleteOk, old(fields), old(data), old(groups), old(options), ids, report, fields1, groups1);
      NativeKept(old(fields), old(data), old(groups), old(options), fields, data, options, ids, report.removed);
      RemovedWithin(old(fields), old(data), old(groups), old(options), fields, data, options, ids, report.removed,
                    RemovalIds(old(fields), old(groups), deleteOk));
    }

    /** The first part of `removeExistingFields`: the plugin's group, when it exists, with its top-level fields. */
    method RemovePluginGroup(deleteOk: nat -> bool) returns (ghost ids: set<nat>, report: RemoveReport)
      requires Valid()
      modifies this
      ensures Valid() && installed == old(installed)
      ensures Removing(old(fields), old(data), old(groups), old(options), ids, report.removed)
      ensures ids == IdsOf(FpseFields(old(fields), old(groups)))
      ensures report == GroupReport(FpseFields(old(fields), old(groups)), deleteOk)
      ensures fields == FieldsAfter(old(fields), old(groups), deleteOk) && groups == GroupsAfter(old(groups))
      ensures FirstWhere(old(groups), GroupNamed(GroupName)).Some? ==>
        var fpse := FirstWhere(old(groups), GroupNamed(GroupName)).value;
        fpse !in groups && forall h :: h in fields && h.groupId == fpse.id && h.parentId == 0 ==> !deleteOk(h.id)
    {
      var fpse := FirstWhere(groups, GroupNamed(GroupName));
      if fpse.Some? {
        ids, report := RemoveGroupFields(fpse.value, deleteOk);
      } else {
        ids, report := {}, RemoveReport([], []);
        assert IdsOf([]) == {} && OkIdsOf([], deleteOk) == {};
        FilterAll(fields, Outside({}, {}));
      }
    }

    /** `Removed` on the current tables. */
    ghost predicate Removing(fields0: seq<FieldRow>, data0: seq<DataRow>, groups0: seq<GroupRow>, options0: map<string, nat>,
                             ids: set<nat>, removed: seq<string>)
      reads this`fields, this`data, this`options
    {
      Removed(fields0, data0, groups0, options0, fields, data, options, ids, removed)
    }

    /**
     * One field of either removal loop: delete it, then list it as removed
     * (dropping its option) when the row was there and its `DELETE`
     * succeeded, or as a failure otherwise.
     */
    method RemoveField(f: FieldRow, ok: bool, ghost fields0: seq<FieldRow>, ghost data0: seq<DataRow>, ghost groups0: seq<GroupRow>,
                       ghost options0: map<string, nat>, ghost ids: set<nat>, report: RemoveReport)
      returns (ghost ids': set<nat>, report': RemoveReport)
      requires Valid() && Removing(fields0, data0, groups0, options0, ids, report.removed)
      requires f in fields0 && f.parentId == 0 && !InNativeGroup(groups0, f)
      modifies this
      ensures Valid() && Removing(fields0, data0, groups0, options0, ids', report'.removed)
      ensures ids' == ids + {f.id}
      ensures report' == if ok && f in old(fields) then report.(removed := report.removed + [f.name])
                         else report.(errors := report.errors + [RemoveFailedMessage + f.name])
      ensures fields == Filter(old(fields), Surviving(f.id, ok))
      ensures groups == old(groups) && installed == old(installed)
    {
      ghost var fields1, data1, options1 := fields, data, options;
      var deleted;
      deleted, report' := DeleteAndReport(f, ok, report);
      ids' := ids + {f.id};
      if ok && f in fields1 {
        assert f.parentId != f.id;
      }
      if deleted {
        ghost var h :| h in fields1 && h.parentId != f.id && h.id == f.id;
        assert h in fields0;
      }
      RemovedStep(fields0, data0, groups0, options0, fields1, data1, options1, fields, data, options, ids, report.removed, f,
                  ok, deleted, report'.removed);
    }

    /** The deletion of one field, then its report entry, and its option dropped when the row was deleted. */
    method DeleteAndReport(f: FieldRow, ok: bool, report: RemoveReport) returns (deleted: bool, report': RemoveReport)
      requires Valid()
      modifies this
      ensures Valid()
      ensures fields == Filter(old(fields), Surviving(f.id, ok))
      ensures forall x :: x in data <==> x in old(data) && x.fieldId != f.id
      ensures deleted <==> ok && exists h :: h in old(fields) && h.parentId != f.id && h.id == f.id
      ensures deleted ==> (report' == report.(removed := report.removed + [f.name])
                           && options == if RemovedOptionKey(f.name).Some? then old(options) - {RemovedOptionKey(f.name).value} else old(options))
      ensures !deleted ==> report' == report.(errors := report.errors + [RemoveFailedMessage + f.name]) && options == old(options)
      ensures groups == old(groups) && installed == old(installed)
    {
      deleted := DeleteField(f.id, ok);
      if deleted {
        report' := report.(removed := report.removed + [f.name]);
        var key := RemovedOptionKey(f.name);
        if key.Some? {
          options := options - {key.value};
        }
      } else {
        report' := report.(errors := report.errors + [RemoveFailedMessage + f.name]);
      }
    }

    /** The first loop of `removeExistingFields`: the fields of the plugin's group, then the group. */
    method RemoveGroupFields(fpse: GroupRow, deleteOk: nat -> bool) returns (ghost ids: set<nat>, report: RemoveReport)
      requires Valid() && fpse in groups && fpse.name == GroupName
      modifies this
      ensures Valid()
      ensures Removing(old(fields), old(data), old(groups), old(options), ids, report.removed)
      ensures var gf := Filter(old(fields), TopLevelIn(fpse.id));
        ids == IdsOf(gf) && report == GroupReport(gf, deleteOk) && fields == Filter(old(fields), Outside(IdsOf(gf), OkIdsOf(gf, deleteOk)))
      ensures groups == Filter(old(groups), OtherGroup(fpse.id))
      ensures forall h :: h in fields && h.groupId == fpse.id && h.parentId == 0 ==> !deleteOk(h.id)
      ensures installed == old(installed)
    {
      var groupFields := Filter(fields, TopLevelIn(fpse.id));
      ids, report := RemoveFieldList(groupFields, fpse, deleteOk);
      forall h | h in fields && h.groupId == fpse.id && h.parentId == 0
        ensures !deleteOk(h.id)
      {
        assert h in groupFields;
      }
      DeleteGroup(fpse.id);
    }

    /** The loop over the plugin group's top-level fields, each removed in turn. */
    method RemoveFieldList(groupFields: seq<FieldRow>, fpse: GroupRow, deleteOk: nat -> bool)
      returns (ghost ids: set<nat>, report: RemoveReport)
      requires Valid() && fpse in groups && fpse.name == GroupName
      requires forall f :: f in groupFields ==> f in fields && f.groupId == fpse.id && f.parentId == 0
      modifies this
      ensures Valid()
      ensures Removing(old(fields), old(data), old(groups), old(options), ids, report.removed)
      ensures ids == IdsOf(groupFields) && report == GroupReport(groupFields, deleteOk)
      ensures fields == Filter(old(fields), Outside(IdsOf(groupFields), OkIdsOf(groupFields, deleteOk)))
      ensures groups == old(groups) && installed == old(installed)
    {
      assert GroupById(groups, fpse.id) == Some(fpse);
      assert GroupName !in NativeGroups;
      ids := {};
      report := RemoveReport([], []);
      ghost var gone: set<nat> := {};
      assert groupFields[..0] == [];
      assert IdsOf([]) == {} && OkIdsOf([], deleteOk) == {};
      FilterAll(fields, Outside({}, {}));
      var i := 0;
      while i < |groupFields|
        invariant 0 <= i <= |groupFields| && Valid() && groups == old(groups) && installed == old(installed)
        invariant Removing(old(fields), old(data), old(groups), old(options), ids, report.removed)
        invariant fields == Filter(old(fields), Outside(ids, gone))
        invariant ids == IdsOf(groupFields[..i]) && gone == OkIdsOf(groupFields[..i], deleteOk)
        invariant report == GroupReport(groupFields[..i], deleteOk)
      {
        assert groupFields[i] in groupFields;
        ids, report, gone := RemoveListed(groupFields, i, deleteOk, old(fields), old(data), old(groups), old(options),
                                          ids, report, gone);
        i := i + 1;
      }
      assert groupFields[..i] == groupFields;
    }

    /**
     * One iteration of the loop over the plugin group's fields: the `i`-th
     * field is removed, listed as removed the first time it is met when its
     * delete succeeds, and its id joins `ids` (and `gone` when deleted).
     */
    method RemoveListed(groupFields: seq<FieldRow>, i: nat, deleteOk: nat -> bool, ghost fields0: seq<FieldRow>,
                        ghost data0: seq<DataRow>, ghost groups0: seq<GroupRow>, ghost options0: map<string, nat>,
                        ghost ids: set<nat>, report: RemoveReport, ghost gone: set<nat>)
      returns (ghost ids': set<nat>, report': RemoveReport, ghost gone': set<nat>)
      requires i < |groupFields| && Valid() && Removing(fields0, data0, groups0, options0, ids, report.removed)
      requires forall f :: f in groupFields ==> f in fields0 && f.parentId == 0 && !InNativeGroup(groups0, f)
      requires fields == Filter(fields0, Outside(ids, gone))
      requires ids == IdsOf(groupFields[..i]) && gone == OkIdsOf(groupFields[..i], deleteOk)
      requires report == GroupReport(groupFields[..i], deleteOk)
      modifies this
      ensures Valid() && Removing(fields0, data0, groups0, options0, ids', report'.removed)
      ensures fields == Filter(fields0, Outside(ids', gone'))
      ensures ids' == IdsOf(groupFields[..i + 1]) && gone' == OkIdsOf(groupFields[..i + 1], deleteOk)
      ensures report' == GroupReport(groupFields[..i + 1], deleteOk)
      ensures groups == old(groups) && installed == old(installed)
    {
      var f := groupFields[i];
      var ok := deleteOk(f.id);
      assert f in groupFields;
      ghost var fields1 := fields;
      ids', report' := RemoveField(f, ok, fields0, data0, groups0, options0, ids, report);
      gone' := if ok then gone + {f.id} else gone;
      GroupStep(fields0, groupFields, i, deleteOk, ids, gone);
    }

    /** The `DELETE` of the group row with the given id. */
    method DeleteGroup(id: nat)
      requires Valid()
      modifies this`groups
      ensures Valid()
      ensures groups == Filter(old(groups), OtherGroup(id))
    {
      groups := Filter(groups, OtherGroup(id));
    }

    /**
     * The second loop of `removeExistingFields`: for each definition name,
     * the first top-level field carrying it is removed when its group exists
     * and is not one of BuddyBoss's own; the report gains the name as
     * removed when that `DELETE` succeeds and a failure otherwise.
     */
    method RemoveNamedFields(deleteOk: nat -> bool, ghost fields0: seq<FieldRow>, ghost data0: seq<DataRow>,
                             ghost groups0: seq<GroupRow>, ghost options0: map<string, nat>,
                             ghost ids0: set<nat>, report0: RemoveReport, ghost fields1: seq<FieldRow>, ghost groups1: seq<GroupRow>)
      returns (ghost ids: set<nat>, report: RemoveReport)
      requires Valid() && Removing(fields0, data0, groups0, options0, ids0, report0.removed)
      requires fields == fields1 && groups == groups1
      requires forall g :: g in groups ==> g in groups0
      requires forall g, h :: g in groups0 && h in groups0 && g.id == h.id ==> g == h
      modifies this
      ensures Valid() && Removing(fields0, data0, groups0, options0, ids, report.removed)
      ensures groups == old(groups) && installed == old(installed)
      ensures forall h :: h in fields ==> h in fields1
      ensures report == Joined(report0, NamedReport(fields1, groups1, deleteOk, Definitions))
      ensures TargetsGone(fields1, groups1, deleteOk, Definitions, fields)
      ensures ids <= ids0 + TargetIds(fields1, groups1, Definitions)
    {
      DefinitionNamesDistinct();
      ids, report := RemoveNamedList(Definitions, deleteOk, fields0, data0, groups0, options0, ids0, report0);
    }

    /** The name-matching loop over any definitions whose names are distinct. */
    method RemoveNamedList(defs: seq<FieldDef>, deleteOk: nat -> bool, ghost fields0: seq<FieldRow>, ghost data0: seq<DataRow>,
                           ghost groups0: seq<GroupRow>, ghost options0: map<string, nat>,
                           ghost ids0: set<nat>, report0: RemoveReport)
      returns (ghost ids: set<nat>, report: RemoveReport)
      requires DistinctNames(defs) && Valid() && Removing(fields0, data0, groups0, options0, ids0, report0.removed)
      requires forall g :: g in groups ==> g in groups0
      requires forall g, h :: g in groups0 && h in groups0 && g.id == h.id ==> g == h
      modifies this
      ensures Valid() && Removing(fields0, data0, groups0, options0, ids, report.removed)
      ensures groups == old(groups) && installed == old(installed)
      ensures forall h :: h in fields ==> h in old(fields)
      ensures report == Joined(report0, NamedReport(old(fields), old(groups), deleteOk, defs))
      ensures TargetsGone(old(fields), old(groups), deleteOk, defs, fields)
      ensures ids <= ids0 + TargetIds(old(fields), old(groups), defs)
    {
      ids, report := ids0, report0;
      assert defs[..0] == [];
      var i := 0;
      while i < |defs|
        invariant 0 <= i <= |defs| && Valid() && groups == old(groups) && installed == old(installed)
        invariant Removing(fields0, data0, groups0, options0, ids, report.removed)
        invariant forall h :: h in fields ==> h in old(fields)
        invariant FirstMatchesKept(defs, old(fields), fields, i)
        invariant report == Joined(report0, NamedReport(old(fields), groups, deleteOk, defs[..i]))
        invariant TargetsGone(old(fields), groups, deleteOk, defs[..i], fields)
        invariant ids <= ids0 + TargetIds(old(fields), groups, defs[..i])
      {
        ids, report := RemoveNamed(defs, i, deleteOk, old(fields), fields0, data0, groups0, options0, ids0, ids, report0, report);
        i := i + 1;
      }
      assert defs[..i] == defs;
    }

    /** One iteration of the name-matching loop, for the `i`-th definition. */
    method RemoveNamed(defs: seq<FieldDef>, i: nat, deleteOk: nat -> bool, ghost fields1: seq<FieldRow>, ghost fields0: seq<FieldRow>,
                       ghost data0: seq<DataRow>, ghost groups0: seq<GroupRow>, ghost options0: map<string, nat>,
                       ghost ids0: set<nat>, ghost ids: set<nat>, report0: RemoveReport, report: RemoveReport)
      returns (ghost ids': set<nat>, report': RemoveReport)
      requires DistinctNames(defs) && i < |defs| && Valid() && Removing(fields0, data0, groups0, options0, ids, report.removed)
      requires forall g :: g in groups ==> g in groups0
      requires forall g, h :: g in groups0 && h in groups0 && g.id == h.id ==> g == h
      requires forall h :: h in fields ==> h in fields1
      requires FirstMatchesKept(defs, fields1, fields, i)
      requires report == Joined(report0, NamedReport(fields1, groups, deleteOk, defs[..i]))
      requires TargetsGone(fields1, groups, deleteOk, defs[..i], fields)
      requires ids <= ids0 + TargetIds(fields1, groups, defs[..i])
      modifies this
      ensures Valid() && Removing(fields0, data0, groups0, options0, ids', report'.removed)
      ensures groups == old(groups) && installed == old(installed)
      ensures forall h :: h in fields ==> h in fields1
      ensures FirstMatchesKept(defs, fields1, fields, i + 1)
      ensures report' == Joined(report0, NamedReport(fields1, groups, deleteOk, defs[..i + 1]))
      ensures TargetsGone(fields1, groups, deleteOk, defs[..i + 1], fields)
      ensures ids' <= ids0 + TargetIds(fields1, groups, defs[..i + 1])
    {
      ids', report' := ids, report;
      var name := defs[i].name;
      var field := FirstWhere(fields, TopLevelNamedAnywhere(name));
      ghost var before, next := fields, nextFieldId;
      ghost var target: Option<FieldRow> := None;
      if field.Some? {
        var group := GroupById(groups, field.value.groupId);
        if group.Some? && group.value.name !in NativeGroups {
          var f := field.value;
          target := field;
          GroupByIdSubset(groups0, groups, f.groupId);
          ids', report' := RemoveField(f, deleteOk(f.id), fields0, data0, groups0, options0, ids, report);
          assert fields == Filter(before, Surviving(f.id, deleteOk(f.id)));
          assert report' == if deleteOk(f.id) then report.(removed := report.removed + [name])
                            else report.(errors := report.errors + [RemoveFailedMessage + name]);
        }
      }
      assert target == NamedTarget(before, groups, name);
      NamedStep(defs, fields1, before, fields, groups, deleteOk, i, next, target);
      JoinedSnoc(report0, NamedReport(fields1, groups, deleteOk, defs[..i]), name);
    }
  }

  /** The report and the target ids of one more definition: its target's entry and id added to those of the earlier ones. */
  lemma NamedSnoc(fields: seq<FieldRow>, groups: seq<GroupRow>, deleteOk: nat -> bool, defs: seq<FieldDef>, i: nat)
    requires i < |defs|
    ensures var t := NamedTarget(fields, groups, defs[i].name);
      TargetIds(fields, groups, defs[..i + 1]) == TargetIds(fields, groups, defs[..i]) + (if t.Some? then {t.value.id} else {})
    ensures var name := defs[i].name;
      var t := NamedTarget(fields, groups, name);
      var r := NamedReport(fields, groups, deleteOk, defs[..i]);
      NamedReport(fields, groups, deleteOk, defs[..i + 1]) ==
        if t.None? then r
        else if deleteOk(t.value.id) then r.(removed := r.removed + [name])
        else r.(errors := r.errors + [RemoveFailedMessage + name])
  {
    assert defs[..i + 1][..i] == defs[..i] && defs[..i + 1][i] == defs[i];
  }

  /**
   * One step of the name-matching loop, for the `i`-th definition: its
   * target in the current rows is its target in `fields1`, and removing it
   * keeps the later names' first matches, extends the report by the
   * target's entry and adds the target to the rows gone.
   */
  lemma NamedStep(defs: seq<FieldDef>, fields1: seq<FieldRow>, before: seq<FieldRow>, after: seq<FieldRow>, groups: seq<GroupRow>,
                  deleteOk: nat -> bool, i: nat, next: nat, target: Option<FieldRow>)
    requires DistinctNames(defs) && i < |defs| && FieldIds(before, next)
    requires FirstMatchesKept(defs, fields1, before, i)
    requires TargetsGone(fields1, groups, deleteOk, defs[..i], before)
    requires target == NamedTarget(before, groups, defs[i].name)
    requires after == if target.Some? then Filter(before, Surviving(target.value.id, deleteOk(target.value.id))) else before
    ensures FirstMatchesKept(defs, fields1, after, i + 1)
    ensures TargetsGone(fields1, groups, deleteOk, defs[..i + 1], after)
    ensures target == NamedTarget(fields1, groups, defs[i].name)
    ensures TargetIds(fields1, groups, defs[..i + 1])
      == TargetIds(fields1, groups, defs[..i]) + (if target.Some? then {target.value.id} else {})
    ensures var name := defs[i].name;
      var r := NamedReport(fields1, groups, deleteOk, defs[..i]);
      NamedReport(fields1, groups, deleteOk, defs[..i + 1]) ==
        if target.None? then r
        else if deleteOk(target.value.id) then r.(removed := r.removed + [name])
        else r.(errors := r.errors + [RemoveFailedMessage + name])
  {
    var name := defs[i].name;
    assert FirstWhere(before, TopLevelNamedAnywhere(name)) == FirstWhere(fields1, TopLevelNamedAnywhere(name));
    assert target == NamedTarget(fields1, groups, name);
    NamedSnoc(fields1, groups, deleteOk, defs, i);
    FirstMatchesStep(defs, fields1, before, after, groups, deleteOk, i, next, target);
    TargetsGoneStep(defs, fields1, before, after, groups, deleteOk, i, target);
  }

  /** Removing the `i`-th definition's target keeps the first match of every later name. */
  lemma FirstMatchesStep(defs: seq<FieldDef>, fields1: seq<FieldRow>, before: seq<FieldRow>, after: seq<FieldRow>, groups: seq<GroupRow>,
                         deleteOk: nat -> bool, i: nat, next: nat, target: Option<FieldRow>)
    requires DistinctNames(defs) && i < |defs| && FieldIds(before, next)
    requires FirstMatchesKept(defs, fields1, before, i)
    requires target == NamedTarget(before, groups, defs[i].name)
    requires after == if target.Some? then Filter(before, Surviving(target.value.id, deleteOk(target.value.id))) else before
    ensures FirstMatchesKept(defs, fields1, after, i + 1)
  {
    if target.Some? {
      OtherNamesKept(defs, before, target.value, deleteOk(target.value.id), i, next);
    }
  }

  /** Removing the `i`-th definition's target keeps every earlier target gone and, when its `DELETE` succeeds, makes it gone too. */
  lemma TargetsGoneStep(defs: seq<FieldDef>, fields1: seq<FieldRow>, before: seq<FieldRow>, after: seq<FieldRow>, groups: seq<GroupRow>,
                        deleteOk: nat -> bool, i: nat, target: Option<FieldRow>)
    requires i < |defs| && TargetsGone(fields1, groups, deleteOk, defs[..i], before)
    requires target == NamedTarget(fields1, groups, defs[i].name)
    requires after == if target.Some? then Filter(before, Surviving(target.value.id, deleteOk(target.value.id))) else before
    ensures TargetsGone(fields1, groups, deleteOk, defs[..i + 1], after)
  {
    forall d | d in defs[..i + 1] && NamedTarget(fields1, groups, d.name).Some? && deleteOk(NamedTarget(fields1, groups, d.name).value.id)
      ensures NoneWithIds(after, {NamedTarget(fields1, groups, d.name).value.id})
    {
      assert defs[..i + 1] == defs[..i] + [defs[i]];
      if d !in defs[..i] {
        assert d == defs[i];
      }
    }
  }

  /**
   * One step of the loop over the plugin group's fields `gf`: the `i`-th
   * field joins the ids, filtering out what its deletion removes is
   * filtering by the new ids, and the row is still there, when its delete
   * succeeds, exactly when it was not met before.
   */
  lemma GroupStep(fields0: seq<FieldRow>, gf: seq<FieldRow>, i: nat, deleteOk: nat -> bool, parents: set<nat>, gone: set<nat>)
    requires i < |gf| && forall f :: f in gf ==> f in fields0 && f.parentId == 0
    requires forall f :: f in fields0 ==> f.id > 0
    requires forall f, h :: f in fields0 && h in fields0 && f.id == h.id ==> f == h
    requires parents == IdsOf(gf[..i]) && gone == OkIdsOf(gf[..i], deleteOk)
    ensures var f := gf[i];
      var parents' := parents + {f.id};
      var gone' := if deleteOk(f.id) then gone + {f.id} else gone;
      && IdsOf(gf[..i + 1]) == parents' && OkIdsOf(gf[..i + 1], deleteOk) == gone'
      && Filter(Filter(fields0, Outside(parents, gone)), Surviving(f.id, deleteOk(f.id))) == Filter(fields0, Outside(parents', gone'))
      && GroupReport(gf[..i + 1], deleteOk)
         == var r := GroupReport(gf[..i], deleteOk);
            if deleteOk(f.id) && f in Filter(fields0, Outside(parents, gone)) then r.(removed := r.removed + [f.name])
            else r.(errors := r.errors + [RemoveFailedMessage + f.name])
  {
    var f := gf[i];
    var ok := deleteOk(f.id);
    GroupIdsStep(gf, i, deleteOk);
    FilterTwice(fields0, Outside(parents, gone), Surviving(f.id, ok), Outside(parents + {f.id}, if ok then gone + {f.id} else gone));
    GroupReportStep(fields0, gf, i, deleteOk, parents, gone);
  }

  /** The ids one more field of the group adds: its own, and among the deleted ones its own when its `DELETE` succeeds. */
  lemma GroupIdsStep(gf: seq<FieldRow>, i: nat, deleteOk: nat -> bool)
    requires i < |gf|
    ensures IdsOf(gf[..i + 1]) == IdsOf(gf[..i]) + {gf[i].id}
    ensures OkIdsOf(gf[..i + 1], deleteOk) == OkIdsOf(gf[..i], deleteOk) + (if deleteOk(gf[i].id) then {gf[i].id} else {})
  {
    var f, before := gf[i], gf[..i];
    assert gf[..i + 1] == before + [f];
    forall x | x in before + [f]
      ensures x in before || x == f
    {
    }
  }

  /** The report of one more field of the group: removed exactly when its `DELETE` succeeds and its row is still there. */
  lemma GroupReportStep(fields0: seq<FieldRow>, gf: seq<FieldRow>, i: nat, deleteOk: nat -> bool, parents: set<nat>, gone: set<nat>)
    requires i < |gf| && forall f :: f in gf ==> f in fields0 && f.parentId == 0
    requires forall f :: f in fields0 ==> f.id > 0
    requires forall f, h :: f in fields0 && h in fields0 && f.id == h.id ==> f == h
    requires parents == IdsOf(gf[..i]) && gone == OkIdsOf(gf[..i], deleteOk)
    ensures var f := gf[i];
      GroupReport(gf[..i + 1], deleteOk)
      == var r := GroupReport(gf[..i], deleteOk);
         if deleteOk(f.id) && f in Filter(fields0, Outside(parents, gone)) then r.(removed := r.removed + [f.name])
         else r.(errors := r.errors + [RemoveFailedMessage + f.name])
  {
    var f := gf[i];
    var before := gf[..i];
    assert gf[..i + 1][..i] == before && gf[..i + 1][i] == f;
    assert f in gf;
    assert 0 !in parents by {
      forall x | x in before
        ensures x.id != 0
      {
        assert x in gf;
      }
    }
    if deleteOk(f.id) && f in before {
      assert f.id in gone;
    }
    if deleteOk(f.id) && f.id in gone {
      var g :| g in before && deleteOk(g.id) && g.id == f.id;
      assert g in gf;
    }
  }

  /** Extending the second of two joined reports extends the joined one. */
  lemma JoinedSnoc(a: RemoveReport, b: RemoveReport, name: string)
    ensures Joined(a, b.(removed := b.removed + [name])) == Joined(a, b).(removed := Joined(a, b).removed + [name])
    ensures Joined(a, b.(errors := b.errors + [RemoveFailedMessage + name]))
         == Joined(a, b).(errors := Joined(a, b).errors + [RemoveFailedMessage + name])
  {
    assert a.removed + (b.removed + [name]) == (a.removed + b.removed) + [name];
    assert a.errors + (b.errors + [RemoveFailedMessage + name]) == (a.errors + b.errors) + [RemoveFailedMessage + name];
  }

  /** The first match of every definition name from the `i`-th on is the same in `fields` as in `fields1`. */
  ghost predicate FirstMatchesKept(defs: seq<FieldDef>, fields1: seq<FieldRow>, fields: seq<FieldRow>, i: nat)
  {
    forall k :: i <= k < |defs| ==>
      FirstWhere(fields, TopLevelNamedAnywhere(defs[k].name)) == FirstWhere(fields1, TopLevelNamedAnywhere(defs[k].name))
  }

  /** Every target of the name-matching loop over `defs` whose `DELETE` succeeds is gone from `fields`. */
  ghost predicate TargetsGone(fields1: seq<FieldRow>, groups: seq<GroupRow>, deleteOk: nat -> bool, defs: seq<FieldDef>,
                              fields: seq<FieldRow>)
  {
    forall d :: d in defs && NamedTarget(fields1, groups, d.name).Some? && deleteOk(NamedTarget(fields1, groups, d.name).value.id) ==>
      NoneWithIds(fields, {NamedTarget(fields1, groups, d.name).value.id})
  }

  /** Removing the field matched for the `i`-th definition leaves the first match of every later definition's name where it was. */
  lemma OtherNamesKept(defs: seq<FieldDef>, fields: seq<FieldRow>, f: FieldRow, ok: bool, i: nat, next: nat)
    requires DistinctNames(defs) && i < |defs| && FieldIds(fields, next)
    requires f in fields && f.name == defs[i].name && f.parentId == 0
    ensures forall k :: i < k < |defs| ==>
      FirstWhere(Filter(fields, Surviving(f.id, ok)), TopLevelNamedAnywhere(defs[k].name))
        == FirstWhere(fields, TopLevelNamedAnywhere(defs[k].name))
  {
    forall k | i < k < |defs|
      ensures FirstWhere(Filter(fields, Surviving(f.id, ok)), TopLevelNamedAnywhere(defs[k].name))
        == FirstWhere(fields, TopLevelNamedAnywhere(defs[k].name))
    {
      var q := TopLevelNamedAnywhere(defs[k].name);
      forall x | x in fields && q(x)
        ensures Surviving(f.id, ok)(x)
      {
        assert x.id == f.id ==> x == f;
      }
      FirstWhereFilter(fields, Surviving(f.id, ok), q);
    }
  }

  /**
   * What the removal loops keep, against the tables as they were
   * (`fields0`, `data0`, `groups0`, `options0`): every id in `ids` belongs
   * to a top-level field outside BuddyBoss's own groups; ids name one row
   * each; a row is gone only
   * if its id or its parent is in `ids`; data is gone only for such ids;
   * options only disappear, and those of the removed names are gone.
   */
  ghost predicate Removed(fields0: seq<FieldRow>, data0: seq<DataRow>, groups0: seq<GroupRow>, options0: map<string, nat>,
                          fields: seq<FieldRow>, data: seq<DataRow>, options: map<string, nat>, ids: set<nat>, removed: seq<string>)
  {
    (forall f :: f in fields0 ==> f.id > 0)
    && (forall f, h :: f in fields0 && h in fields0 && f.id == h.id ==> f == h)
    && (forall x :: x in ids ==> exists f :: f in fields0 && f.id == x && f.parentId == 0 && !InNativeGroup(groups0, f))
    && (forall f :: f in fields0 && f.id !in ids && f.parentId !in ids ==> f in fields)
    && (forall x :: x in data0 && x.fieldId !in ids ==> x in data)
    && (forall f :: f in fields ==> f in fields0)
    && (forall k :: k in options ==> k in options0 && options[k] == options0[k])
    && (forall n :: n in removed && RemovedOptionKey(n).Some? ==> RemovedOptionKey(n).value !in options)
  }

  /** The removal invariant keeps every top-level field of a native group, and its data. */
  lemma NativeKept(fields0: seq<FieldRow>, data0: seq<DataRow>, groups0: seq<GroupRow>, options0: map<string, nat>,
                   fields: seq<FieldRow>, data: seq<DataRow>, options: map<string, nat>, ids: set<nat>, removed: seq<string>)
    requires Removed(fields0, data0, groups0, options0, fields, data, options, ids, removed)
    ensures forall f :: f in fields0 && f.parentId == 0 && InNativeGroup(groups0, f) ==> f in fields
    ensures forall x :: x in data0 && (exists f :: f in fields0 && f.id == x.fieldId && f.parentId == 0 && InNativeGroup(groups0, f)) ==> x in data
  {
    forall f | f in fields0 && f.parentId == 0 && InNativeGroup(groups0, f)
      ensures f.id !in ids
    {
      assert forall g :: g in fields0 && g.id == f.id ==> g == f;
    }
  }

  /** Rows whose id and parent lie outside a bound on the removal ids, and their data, are kept. */
  lemma RemovedWithin(fields0: seq<FieldRow>, data0: seq<DataRow>, groups0: seq<GroupRow>, options0: map<string, nat>,
                      fields: seq<FieldRow>, data: seq<DataRow>, options: map<string, nat>, ids: set<nat>, removed: seq<string>,
                      bound: set<nat>)
    requires Removed(fields0, data0, groups0, options0, fields, data, options, ids, removed) && ids <= bound
    ensures forall f :: f in fields0 && f.id !in bound && f.parentId !in bound ==> f in fields
    ensures forall x :: x in data0 && x.fieldId !in bound ==> x in data
  {
  }

  /** Deleting one eligible field, and its option when it is listed as removed, keeps `Removed`. */
  lemma RemovedStep(fields0: seq<FieldRow>, data0: seq<DataRow>, groups0: seq<GroupRow>, options0: map<string, nat>,
                    fields1: seq<FieldRow>, data1: seq<DataRow>, options1: map<string, nat>,
                    fields2: seq<FieldRow>, data2: seq<DataRow>, options2: map<string, nat>,
                    ids: set<nat>, removed: seq<string>, f: FieldRow, ok: bool, deleted: bool, removed': seq<string>)
    requires Removed(fields0, data0, groups0, options0, fields1, data1, options1, ids, removed)
    requires f in fields0 && f.parentId == 0 && !InNativeGroup(groups0, f)
    requires forall h :: h in fields2 <==> h in fields1 && h.parentId != f.id && !(ok && h.id == f.id)
    requires forall x :: x in data2 <==> x in data1 && x.fieldId != f.id
    requires deleted ==> (removed' == removed + [f.name]
                          && options2 == if RemovedOptionKey(f.name).Some? then options1 - {RemovedOptionKey(f.name).value} else options1)
    requires !deleted ==> removed' == removed && options2 == options1
    ensures Removed(fields0, data0, groups0, options0, fields2, data2, options2, ids + {f.id}, removed')
  {
    var ids' := ids + {f.id};
    forall x | x in ids'
      ensures exists g :: g in fields0 && g.id == x && g.parentId == 0 && !InNativeGroup(groups0, g)
    {
      if x == f.id {
        assert f in fields0 && f.id == x;
      }
    }
    forall h | h in fields0 && h.id !in ids' && h.parentId !in ids'
      ensures h in fields2
    {
      assert h in fields1;
    }
    forall x | x in data0 && x.fieldId !in ids'
      ensures x in data2
    {
      assert x in data1;
    }
    forall k | k in options2
      ensures k in options0 && options2[k] == options0[k]
    {
      assert k in options1 && options2[k] == options1[k];
    }
    forall n | n in removed' && RemovedOptionKey(n).Some?
      ensures RemovedOptionKey(n).value !in options2
    {
      if n !in removed {
        assert n == f.name;
      }
    }
  }

  /** A group found among a subset of rows with unique ids is the one found among all of them. */
  lemma GroupByIdSubset(groups0: seq<GroupRow>, groups1: seq<GroupRow>, id: nat)
    requires forall g, h :: g in groups0 && h in groups0 && g.id == h.id ==> g == h
    requires forall g :: g in groups1 ==> g in groups0
    requires GroupById(groups1, id).Some?
    ensures GroupById(groups0, id) == GroupById(groups1, id)
  {
  }
}
