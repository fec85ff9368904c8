/**
 * The area-creation schemas: a hydraulic sector or a centre pivot, chosen by the
 * `tipo_setor` literal. A form is a map from field name to the text typed in it; a
 * missing key is a field left undefined. Each field carries one rule, and the object
 * check reports the failures of its fields in declaration order.
 */
module FormSchemas {
  import opened Validation

  /** The fields the two schemas know; any other key of the input is dropped. */
  datatype Key =
    | Identificacao
    | AreaHa
    | TipoSetor
    | Fabricante
    | Modelo
    | EmissorType
    | VazaoNominal
    | PressaoTrabalho
    | DistEmissores
    | DistLaterais
    | FiltroTipo
    | MalhaFiltro
    | ValvulaTipo
    | EnergiaTipo
    | CondicoesGerais
    | FreqManutencao
    | DataUltimaManutencao
    | NumTorres
    | Comprimento
    | PotenciaMotor
    | VazaoOperacao
    | ControleTipo
    | Fertirrigacao
    | FonteHidrica
    | TempoFuncionamento
    | Velocidade
    | BocalTipo
    | PressaoBocal
    | ProblemasObservados
    | DataUltimaAvaliacoes

  /** The field's name in the form. */
  function Name(k: Key): string {
    match k
    case Identificacao => "identificacao"
    case AreaHa => "area_ha"
    case TipoSetor => "tipo_setor"
    case Fabricante => "fabricante"
    case Modelo => "modelo"
    case EmissorType => "emissor_type"
    case VazaoNominal => "vazao_nominal"
    case PressaoTrabalho => "pressao_trabalho"
    case DistEmissores => "dist_emissores"
    case DistLaterais => "dist_laterais"
    case FiltroTipo => "filtro_tipo"
    case MalhaFiltro => "malha_filtro"
    case ValvulaTipo => "valvula_tipo"
    case EnergiaTipo => "energia_tipo"
    case CondicoesGerais => "condicoes_gerais"
    case FreqManutencao => "freq_manutencao"
    case DataUltimaManutencao => "data_ultima_manutencao"
    case NumTorres => "num_torres"
    case Comprimento => "comprimento"
    case PotenciaMotor => "potencia_motor"
    case VazaoOperacao => "vazao_operacao"
    case ControleTipo => "controle_tipo"
    case Fertirrigacao => "fertirrigacao"
    case FonteHidrica => "fonte_hidrica"
    case TempoFuncionamento => "tempo_funcionamento"
    case Velocidade => "velocidade"
    case BocalTipo => "bocal_tipo"
    case PressaoBocal => "pressao_bocal"
    case ProblemasObservados => "problemas_observados"
    case DataUltimaAvaliacoes => "data_ultima_avaliacoes"
  }

  type Form = map<Key, string>

  /** The check a field is declared with. */
  datatype Rule =
    | MinLength(n: nat)                    // a string of at least `n` characters
    | OneOf(options: seq<string>)          // one of the enumerated strings
    | Literal(value: string)               // exactly this string
    | Optional                             // any string, or absent

  datatype Field = Field(key: Key, rule: Rule)

  /** Messages the validation library supplies itself. */
  const RequiredMessage: string := "Required"
  const InvalidEnumMessage: string := "Invalid enum value"
  const InvalidLiteralMessage: string := "Invalid literal value"
  const InvalidDiscriminatorMessage: string := "Invalid discriminator value"

  /** The message a field declared with a minimum length reports when it is too short. */
  function TooShortMessage(k: Key): string {
    match k
    case Identificacao => "A identificação deve ter pelo menos 3 caracteres"
    case AreaHa => "A área é obrigatória"
    case VazaoNominal => "Vazão nominal é obrigatória"
    case PressaoTrabalho => "Pressão de trabalho é obrigatória"
    case DistEmissores => "Distância entre emissores é obrigatória"
    case DistLaterais => "Distância entre laterais é obrigatória"
    case FiltroTipo => "Tipo de filtro é obrigatório"
    case MalhaFiltro => "Malha do filtro é obrigatória"
    case ValvulaTipo => "Tipo de válvula é obrigatório"
    case EnergiaTipo => "Tipo de energia é obrigatório"
    case FreqManutencao => "Frequência de manutenção é obrigatória"
    case DataUltimaManutencao => "Data da última manutenção é obrigatória"
    case NumTorres => "Número de torres é obrigatório"
    case Comprimento => "Comprimento é obrigatório"
    case PotenciaMotor => "Potência do motor é obrigatória"
    case VazaoOperacao => "Vazão de operação é obrigatória"
    case ControleTipo => "Tipo de controle é obrigatório"
    case FonteHidrica => "Fonte hídrica é obrigatória"
    case TempoFuncionamento => "Tempo de funcionamento é obrigatório"
    case Velocidade => "Velocidade é obrigatória"
    case BocalTipo => "Tipo de bocal é obrigatório"
    case PressaoBocal => "Pressão do bocal é obrigatória"
    case DataUltimaAvaliacoes => "Data da última avaliação é obrigatória"
    case _ => RequiredMessage
  }

  /** Whether the form satisfies one field's rule. */
  predicate Satisfies(form: Form, f: Field) {
    match f.rule
    case MinLength(n) => f.key in form && |form[f.key]| >= n
    case OneOf(options) => f.key in form && form[f.key] in options
    case Literal(value) => f.key in form && form[f.key] == value
    case Optional => true
  }

  /**
   * The issues of one field: a missing string or enum field is "Required", a missing
   * literal is a literal mismatch, and a present value is judged by its rule.
   */
  function FieldIssues(form: Form, f: Field): (r: seq<Issue>)
    ensures r == [] <==> Satisfies(form, f)
    ensures |r| <= 1 && forall i :: i in r ==> i.path == Name(f.key)
  {
    if f.key !in form then
      match f.rule
      case Optional => []
      case Literal(_) => [Issue(Name(f.key), InvalidLiteralMessage)]
      case _ => [Issue(Name(f.key), RequiredMessage)]
    else
      match f.rule
      case MinLength(n) => Check(|form[f.key]| < n, Name(f.key), TooShortMessage(f.key))
      case OneOf(options) => Check(form[f.key] !in options, Name(f.key), InvalidEnumMessage)
      case Literal(value) => Check(form[f.key] != value, Name(f.key), InvalidLiteralMessage)
      case Optional => []
  }

  /** The object check: every field's issues, in the order the fields are declared. */
  function ObjectIssues(form: Form, fields: seq<Field>): (r: seq<Issue>)
    ensures r == [] <==> AllSatisfy(form, fields)
  {
    if fields == [] then []
    else FieldIssues(form, fields[0]) + ObjectIssues(form, fields[1..])
  }

  /** Whether the form satisfies every field's rule. */
  predicate AllSatisfy(form: Form, fields: seq<Field>) {
    forall k :: 0 <= k < |fields| ==> Satisfies(form, fields[k])
  }

  const EmissorTypes: seq<string> := ["MICROMICROASPERSOR", "GOTEJAMENTO"]

  function Required(key: Key): Field {
    Field(key, MinLength(1))
  }

  /** `setorHidraulicoSchema`, field by field. */
  const SetorHidraulicoFields: seq<Field> := [
    Field(Identificacao, MinLength(3)),
    Required(AreaHa),
    Field(TipoSetor, Literal("SETOR_HIDRAULICO")),
    Field(Fabricante, Optional),
    Field(Modelo, Optional),
    Field(EmissorType, OneOf(EmissorTypes)),
    Required(VazaoNominal),
    Required(PressaoTrabalho),
    Required(DistEmissores),
    Required(DistLaterais),
    Required(FiltroTipo),
    Required(MalhaFiltro),
    Required(ValvulaTipo),
    Required(EnergiaTipo),
    Field(CondicoesGerais, Optional),
    Required(FreqManutencao),
    Required(DataUltimaManutencao)
  ]

  /** `pivoCentralSchema`, field by field. */
  const PivoCentralFields: seq<Field> := [
    Field(TipoSetor, Literal("PIVO_CENTRAL")),
    Field(Identificacao, MinLength(3)),
    Required(AreaHa),
    Required(NumTorres),
    Required(Comprimento),
    Field(Fabricante, Optional),
    Field(Modelo, Optional),
    Field(EmissorType, OneOf(EmissorTypes)),
    Required(EnergiaTipo),
    Required(PotenciaMotor),
    Required(VazaoOperacao),
    Required(ControleTipo),
    Field(Fertirrigacao, OneOf(["true", "false"])),
    Required(FonteHidrica),
    Required(TempoFuncionamento),
    Required(Velocidade),
    Required(BocalTipo),
    Required(PressaoBocal),
    Required(DataUltimaManutencao),
    Required(FreqManutencao),
    Field(ProblemasObservados, Optional),
    Required(DataUltimaAvaliacoes)
  ]

  /**
   * `createAreaSchema`: the `tipo_setor` value picks the schema; any other value, or none,
   * is a single discriminator issue.
   */
  function CreateAreaIssues(form: Form): (r: seq<Issue>)
    ensures r == [] ==> TipoSetor in form && form[TipoSetor] in {"SETOR_HIDRAULICO", "PIVO_CENTRAL"}
  {
    if TipoSetor in form && form[TipoSetor] == "SETOR_HIDRAULICO" then
      ObjectIssues(form, SetorHidraulicoFields)
    else if TipoSetor in form && form[TipoSetor] == "PIVO_CENTRAL" then
      ObjectIssues(form, PivoCentralFields)
    else [Issue(Name(TipoSetor), InvalidDiscriminatorMessage)]
  }

  // ---------------------------------------------------------------- what the schemas accept

  predicate HasText(form: Form, key: Key, n: nat) {
    key in form && |form[key]| >= n
  }

  /** The fields of a hydraulic sector that only have to be non-empty. */
  const SetorNonEmpty: set<Key> := {
    AreaHa, VazaoNominal, PressaoTrabalho, DistEmissores, DistLaterais,
    FiltroTipo, MalhaFiltro, ValvulaTipo, EnergiaTipo, FreqManutencao,
    DataUltimaManutencao}

  /** The fields of a centre pivot that only have to be non-empty. */
  const PivoNonEmpty: set<Key> := {
    AreaHa, NumTorres, Comprimento, EnergiaTipo, PotenciaMotor, VazaoOperacao,
    ControleTipo, FonteHidrica, TempoFuncionamento, Velocidade, BocalTipo,
    PressaoBocal, DataUltimaManutencao, FreqManutencao, DataUltimaAvaliacoes}

  /** A hydraulic sector the schema accepts, stated rule by rule. */
  predicate ValidSetorHidraulico(form: Form) {
    && HasText(form, Identificacao, 3)
    && TipoSetor in form && form[TipoSetor] == "SETOR_HIDRAULICO"
    && EmissorType in form && form[EmissorType] in {"MICROMICROASPERSOR", "GOTEJAMENTO"}
    && forall key :: key in SetorNonEmpty ==> HasText(form, key, 1)
  }

  /** A centre pivot the schema accepts, stated rule by rule. */
  predicate ValidPivoCentral(form: Form) {
    && HasText(form, Identificacao, 3)
    && TipoSetor in form && form[TipoSetor] == "PIVO_CENTRAL"
    && EmissorType in form && form[EmissorType] in {"MICROMICROASPERSOR", "GOTEJAMENTO"}
    && Fertirrigacao in form && form[Fertirrigacao] in {"true", "false"}
    && forall key :: key in PivoNonEmpty ==> HasText(form, key, 1)
  }

  /** Every hydraulic sector the schema accepts meets the rules stated one by one. */
  lemma SetorHidraulicoSound(form: Form)
    requires AllSatisfy(form, SetorHidraulicoFields)
    ensures ValidSetorHidraulico(form)
  {
    var fs := SetorHidraulicoFields;
    assert Satisfies(form, fs[0]);
    assert Satisfies(form, fs[1]);
    assert Satisfies(form, fs[2]);
    assert Satisfies(form, fs[3]);
    assert Satisfies(form, fs[4]);
    assert Satisfies(form, fs[5]);
    assert Satisfies(form, fs[6]);
    assert Satisfies(form, fs[7]);
    assert Satisfies(form, fs[8]);
    assert Satisfies(form, fs[9]);
    assert Satisfies(form, fs[10]);
    assert Satisfies(form, fs[11]);
    assert Satisfies(form, fs[12]);
    assert Satisfies(form, fs[13]);
    assert Satisfies(form, fs[14]);
    assert Satisfies(form, fs[15]);
    assert Satisfies(form, fs[16]);
  }

  /** Every form meeting the hydraulic-sector rules is accepted by its schema. */
  lemma SetorHidraulicoComplete(form: Form)
    requires ValidSetorHidraulico(form)
    ensures AllSatisfy(form, SetorHidraulicoFields)
  {
  }

  /**
   * The hydraulic-sector schema accepts exactly the forms with an identification of at
   * least three characters, the right literal, a known emitter type and every required
   * technical field filled in; the maker, model and general conditions play no part.
   */
  lemma SetorHidraulicoMeaning(form: Form)
    ensures ObjectIssues(form, SetorHidraulicoFields) == [] <==> ValidSetorHidraulico(form)
  {
    if AllSatisfy(form, SetorHidraulicoFields) {
      SetorHidraulicoSound(form);
    }
    if ValidSetorHidraulico(form) {
      SetorHidraulicoComplete(form);
    }
  }

  /** Every centre pivot the schema accepts meets the rules stated one by one. */
  lemma PivoCentralSound(form: Form)
    requires AllSatisfy(form, PivoCentralFields)
    ensures ValidPivoCentral(form)
  {
    var fs := PivoCentralFields;
    assert Satisfies(form, fs[0]);
    assert Satisfies(form, fs[1]);
    assert Satisfies(form, fs[2]);
    assert Satisfies(form, fs[3]);
    assert Satisfies(form, fs[4]);
    assert Satisfies(form, fs[5]);
    assert Satisfies(form, fs[6]);
    assert Satisfies(form, fs[7]);
    assert Satisfies(form, fs[8]);
    assert Satisfies(form, fs[9]);
    assert Satisfies(form, fs[10]);
    assert Satisfies(form, fs[11]);
    assert Satisfies(form, fs[12]);
    assert Satisfies(form, fs[13]);
    assert Satisfies(form, fs[14]);
    assert Satisfies(form, fs[15]);
    assert Satisfies(form, fs[16]);
    assert Satisfies(form, fs[17]);
    assert Satisfies(form, fs[18]);
    assert Satisfies(form, fs[19]);
    assert Satisfies(form, fs[20]);
    assert Satisfies(form, fs[21]);
  }

  /** Every form meeting the centre-pivot rules is accepted by its schema. */
  lemma PivoCentralComplete(form: Form)
    requires ValidPivoCentral(form)
    ensures AllSatisfy(form, PivoCentralFields)
  {
  }

  /**
   * The pivot schema accepts exactly the forms with an identification of at least three
   * characters, the right literal, a known emitter type, "true" or "false" for
   * fertigation and every required field filled in; the observed problems play no part.
   */
  lemma PivoCentralMeaning(form: Form)
    ensures ObjectIssues(form, PivoCentralFields) == [] <==> ValidPivoCentral(form)
  {
    if AllSatisfy(form, PivoCentralFields) {
      PivoCentralSound(form);
    }
    if ValidPivoCentral(form) {
      PivoCentralComplete(form);
    }
  }

  /** The union accepts a form exactly when the schema its literal names accepts it. */
  lemma CreateAreaMeaning(form: Form)
    ensures CreateAreaIssues(form) == [] <==> ValidSetorHidraulico(form) || ValidPivoCentral(form)
    ensures !(TipoSetor in form && form[TipoSetor] in {"SETOR_HIDRAULICO", "PIVO_CENTRAL"}) ==>
              CreateAreaIssues(form) == [Issue(Name(TipoSetor), InvalidDiscriminatorMessage)]
  {
    SetorHidraulicoMeaning(form);
    PivoCentralMeaning(form);
  }

  /** A hydraulic sector stays valid when a field that only has to be non-empty gets other text. */
  lemma SetorTextEdit(form: Form, key: Key, text: string)
    requires ValidSetorHidraulico(form) && key in SetorNonEmpty && text != ""
    ensures ValidSetorHidraulico(form[key := text])
  {
    var edited := form[key := text];
    assert forall k :: k in SetorNonEmpty ==> HasText(edited, k, 1);
  }

  /** A centre pivot stays valid when a field that only has to be non-empty gets other text. */
  lemma PivoTextEdit(form: Form, key: Key, text: string)
    requires ValidPivoCentral(form) && key in PivoNonEmpty && text != ""
    ensures ValidPivoCentral(form[key := text])
  {
    var edited := form[key := text];
    assert forall k :: k in PivoNonEmpty ==> HasText(edited, k, 1);
  }

  /**
   * Numeric-looking fields are checked only for being non-empty: any non-empty text, "abc"
   * included, keeps an accepted form accepted.
   */
  lemma AnyTextInNonEmptyField(form: Form, key: Key, text: string)
    requires CreateAreaIssues(form) == []
    requires key in (if form[TipoSetor] == "SETOR_HIDRAULICO" then SetorNonEmpty else PivoNonEmpty)
    requires text != ""
    ensures CreateAreaIssues(form[key := text]) == []
  {
    CreateAreaMeaning(form);
    CreateAreaMeaning(form[key := text]);
    if form[TipoSetor] == "SETOR_HIDRAULICO" {
      SetorTextEdit(form, key, text);
    } else {
      PivoTextEdit(form, key, text);
    }
  }

  /** The fields declared optional. */
  const OptionalKeys: set<Key> := {Fabricante, Modelo, CondicoesGerais, ProblemasObservados}

  /** A hydraulic sector stays valid without its optional fields. */
  lemma SetorWithoutOptional(form: Form)
    requires ValidSetorHidraulico(form)
    ensures ValidSetorHidraulico(form - OptionalKeys)
  {
    var trimmed := form - OptionalKeys;
    assert forall k :: k in SetorNonEmpty ==> HasText(trimmed, k, 1);
  }

  /** A centre pivot stays valid without its optional fields. */
  lemma PivoWithoutOptional(form: Form)
    requires ValidPivoCentral(form)
    ensures ValidPivoCentral(form - OptionalKeys)
  {
    var trimmed := form - OptionalKeys;
    assert forall k :: k in PivoNonEmpty ==> HasText(trimmed, k, 1);
  }

  /** Leaving out the optional fields keeps an accepted form accepted. */
  lemma OptionalFieldsMayBeAbsent(form: Form)
    requires CreateAreaIssues(form) == []
    ensures CreateAreaIssues(form - OptionalKeys) == []
  {
    CreateAreaMeaning(form);
    CreateAreaMeaning(form - OptionalKeys);
    if form[TipoSetor] == "SETOR_HIDRAULICO" {
      SetorWithoutOptional(form);
    } else {
      PivoWithoutOptional(form);
    }
  }

  // ---------------------------------------------------------------- the pivot form's emitter choice

  /** The emitter types the pivot form offers, as written. */
  const PivoFormEmissorOptionsAsWritten: seq<string> := ["MICROASPERSOR", "GOTEJAMENTO"]

  /** The emitter types the pivot form evidently means to offer: the schema's own. */
  const PivoFormEmissorOptions: seq<string> := ["MICROMICROASPERSOR", "GOTEJAMENTO"]

  /** Choosing the first offered option rejects any pivot form, with an issue on the emitter type. */
  lemma OfferedSprinklerOptionRejected(form: Form)
    requires TipoSetor in form && form[TipoSetor] == "PIVO_CENTRAL"
    ensures var chosen := form[EmissorType := PivoFormEmissorOptionsAsWritten[0]];
            && CreateAreaIssues(chosen) != []
            && Name(EmissorType) in Paths(CreateAreaIssues(chosen))
  {
    var chosen := form[EmissorType := PivoFormEmissorOptionsAsWritten[0]];
    var f := Field(EmissorType, OneOf(EmissorTypes));
    assert f == PivoCentralFields[7];
    assert FieldIssues(chosen, f) == [Issue(Name(EmissorType), InvalidEnumMessage)];
    ObjectIssuesMention(chosen, PivoCentralFields, 7);
  }

  /** A field whose check fails shows up, under its own name, in the object's issues. */
  lemma {:induction false} ObjectIssuesMention(form: Form, fields: seq<Field>, k: nat)
    requires k < |fields| && !Satisfies(form, fields[k])
    ensures Name(fields[k].key) in Paths(ObjectIssues(form, fields))
  {
    var issues := FieldIssues(form, fields[0]);
    if k == 0 {
      assert issues[0] in ObjectIssues(form, fields);
    } else {
      ObjectIssuesMention(form, fields[1..], k - 1);
      var i :| i in ObjectIssues(form, fields[1..]) && i.path == Name(fields[k].key);
      assert i in ObjectIssues(form, fields);
    }
  }

  /** With the schema's own values offered, every choice keeps an otherwise accepted pivot form accepted. */
  lemma OfferedOptionsAccepted(form: Form, choice: nat)
    requires CreateAreaIssues(form) == [] && form[TipoSetor] == "PIVO_CENTRAL"
    requires choice < |PivoFormEmissorOptions|
    ensures CreateAreaIssues(form[EmissorType := PivoFormEmissorOptions[choice]]) == []
  {
    CreateAreaMeaning(form);
    CreateAreaMeaning(form[EmissorType := PivoFormEmissorOptions[choice]]);
  }
}
