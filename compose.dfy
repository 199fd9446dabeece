/** The body of the row loop of main() in tools/seed_issues_from_excel.py:
    one spreadsheet row, the default task-type (--ia-default) and the student
    mapping become one issue-creation request (title, body, labels,
    assignees). */
module Compose {
  import opened Text
  import Template

  /** A spreadsheet cell. None is Python's None, the value the column fill
      writes into an added column. */
  type Cell = Option<string>

  /** A row as the loop sees it: column name to cell. */
  type Row = map<string, Cell>

  /** Python truthiness of a cell: None and "" are false. */
  predicate Truthy(c: Cell) { c.Some? && c.value != "" }

  /** `cell or fallback` */
  function Or(c: Cell, fallback: string): string {
    if Truthy(c) then c.value else fallback
  }

  /** str(cell) */
  function Str(c: Cell): string {
    if c.Some? then c.value else "None"
  }

  /** r.get(column, default) */
  function Get(r: Row, column: string, default: Cell): Cell {
    if column in r then r[column] else default
  }

  /** The keys of the DEFAULTS table. */
  datatype DefaultKey =
    Descricao | Entregaveis | Criterios | Arquivos | Comando | Branch | TituloPR | Revisor | Obs

  /** The DEFAULTS table. The PR-title template is written in its pieces,
      literal text and the fields {Semana}, {Tarefa}, {Id}, {Squad} and {IA};
      the branch suggestion keeps its angle-bracket placeholders, which nothing
      fills in. */
  function Default(k: DefaultKey): string {
    match k
    case Descricao => "Descreva brevemente o objetivo desta tarefa."
    case Entregaveis => "- Código funcional\n- Prints ou GIF breve\n- README atualizado (se aplicável)"
    case Criterios => "- Passar nos checks: ESLint, Prettier e html-validate\n- Atender aos requisitos funcionais\n- Seguir padrão de branch e PR"
    case Arquivos => "src/index.html, src/styles.css, src/main.js"
    case Comando => "npm run check"
    case Branch => "feat/aluno-<IdAluno>-<slug>-<COMIA|SEMIA>"
    case TituloPR =>
      "[Semana " + ("{Semana}" + ("] " + ("{Tarefa}" + (" (" + ("{Id}" + (" - Squad " + ("{Squad}" + (" - " + ("{IA}" + ")")))))))))
    case Revisor => "@wagnerjohnatan"
    case Obs => "Preencha Id Aluno, Squad e IA no PR template."
  }

  /** The nine optional columns, in the order the body lists them, and the
      DEFAULTS key that stands in for each. */
  const BodyColumns: seq<string> := [
    "Descrição", "Entregáveis", "Critérios de Aceite", "Arquivos Sugeridos",
    "Comando de Verificação", "Branch Sugerida", "Título do PR", "Revisor", "Observações"
  ]
  const DefaultKeys: seq<DefaultKey> :=
    [Descricao, Entregaveis, Criterios, Arquivos, Comando, Branch, TituloPR, Revisor, Obs]

  /** The two task-type tags. */
  predicate IsTaskType(s: string) { s == "COMIA" || s == "SEMIA" }

  /** Task-type resolution: the row's IA value (or the default when it is
      falsy), stripped and upper-cased; when that is not a tag, the
      upper-cased default, which is not stripped. */
  function ResolveTaskType(cell: Cell, iaDefault: string): (ia: string)
    ensures IsTaskType(ia) || ia == ToUpper(iaDefault)
    ensures IsTaskType(ToUpper(iaDefault)) ==> IsTaskType(ia)
    ensures Truthy(cell) && IsTaskType(ToUpper(Trim(cell.value))) ==> ia == ToUpper(Trim(cell.value))
    ensures Truthy(cell) && !IsTaskType(ToUpper(Trim(cell.value))) ==> ia == ToUpper(iaDefault)
    ensures !Truthy(cell) && IsTaskType(ToUpper(Trim(iaDefault))) ==> ia == ToUpper(Trim(iaDefault))
    ensures !Truthy(cell) && !IsTaskType(ToUpper(Trim(iaDefault))) ==> ia == ToUpper(iaDefault)
  {
    var ia := ToUpper(Trim(Or(cell, iaDefault)));
    if IsTaskType(ia) then ia else ToUpper(iaDefault)
  }

  /** The five values a row is identified by: week, student id, squad, task
      and task-type. */
  datatype Key = Key(semana: string, idAluno: string, squad: string, tarefa: string, ia: string)

  /** str(r.get(column, "")).strip() */
  function Required(r: Row, column: string): string {
    Trim(Str(Get(r, column, Some(""))))
  }

  function ResolveKey(r: Row, iaDefault: string): Key {
    Key(Required(r, "Semana"), Required(r, "Id Aluno"), Required(r, "SQUAD"), Required(r, "Tarefa"),
        ResolveTaskType(Get(r, "IA", None), iaDefault))
  }

  /** The issue title f-string. */
  function IssueTitle(k: Key): string {
    "[Semana " + (k.semana + ("] " + (k.tarefa + (" (" + (k.idAluno + (" - Squad " + (k.squad + (" - " + (k.ia + ")")))))))))
  }

  /** The keyword arguments given to DEFAULTS["TituloPR"].format. */
  function TitleArgs(k: Key): map<string, string> {
    map["Semana" := k.semana, "Tarefa" := k.tarefa, "Id" := k.idAluno, "Squad" := k.squad, "IA" := k.ia]
  }

  /** The PR-title template, formatted with the row's values, never fails and
      is the issue title character for character. */
  lemma PrTitleTemplate(k: Key)
    ensures Template.Format(Default(TituloPR), TitleArgs(k)) == Some(IssueTitle(k))
  {
    var args := TitleArgs(k);
    assert "{" + "Semana" + "}" == "{Semana}";
    assert "{" + "Tarefa" + "}" == "{Tarefa}";
    assert "{" + "Id" + "}" == "{Id}";
    assert "{" + "Squad" + "}" == "{Squad}";
    assert "{" + "IA" + "}" == "{IA}";
    Template.FormatPlain(")", args);
    Template.FormatStep(" - ", "IA", ")", ")", args);
    var t4 := " - " + ("{IA}" + ")");
    var x4 := " - " + (k.ia + ")");
    Template.FormatPair(" (", "Id", " - Squad ", "Squad", t4, x4, args);
    var t2 := " (" + ("{Id}" + (" - Squad " + ("{Squad}" + t4)));
    var x2 := " (" + (k.idAluno + (" - Squad " + (k.squad + x4)));
    Template.FormatPair("[Semana ", "Semana", "] ", "Tarefa", t2, x2, args);
  }

  /** DEFAULTS["TituloPR"].format(Semana=..., Tarefa=..., Id=..., Squad=..., IA=...) */
  function DefaultPrTitle(k: Key): string {
    PrTitleTemplate(k);
    Template.Format(Default(TituloPR), TitleArgs(k)).value
  }

  /** The right-hand side of `r.get(column) or ...` for the DEFAULTS key d. */
  function DefaultFor(k: Key, d: DefaultKey): string {
    if d == TituloPR then DefaultPrTitle(k) else Default(d)
  }

  /** The nine optional values, in body order: the row's value when truthy,
      otherwise its fallback. */
  function Optionals(r: Row, k: Key): (texts: seq<string>)
    ensures |texts| == |BodyColumns|
  {
    seq(9, i requires 0 <= i < 9 => Or(Get(r, BodyColumns[i], None), DefaultFor(k, DefaultKeys[i])))
  }

  /** The five labels of a row. */
  function Labels(k: Key): seq<string> {
    ["tarefa", "Semana:" + k.semana, "SQUAD:" + k.squad, "IdAluno:" + k.idAluno, "IA:" + k.ia]
  }

  /** A student-mapping entry: a record, possibly with a "login", or any
      other YAML value. */
  datatype Student = Record(login: Option<string>) | NotARecord
  type Mapping = map<string, Student>

  /** At most one assignee: the login of the student's record, when it has a
      truthy one. */
  function Assignees(m: Mapping, id: string): (r: seq<string>)
    ensures |r| <= 1
    ensures r != [] <==> id in m && m[id].Record? && Truthy(m[id].login)
    ensures r != [] ==> r == [m[id].login.value]
  {
    if id in m && m[id].Record? && Truthy(m[id].login) then [m[id].login.value] else []
  }

  /** One bold-headed section of the issue body. */
  datatype Section = Section(header: string, text: string)

  function Block(s: Section): string {
    "**" + s.header + "**\n" + s.text
  }

  /** Sections in order, separated by a blank line, the last one ending in a
      single newline. */
  function Render(ss: seq<Section>): string {
    if ss == [] then ""
    else if |ss| == 1 then Block(ss[0]) + "\n"
    else Block(ss[0]) + "\n\n" + Render(ss[1..])
  }

  /** What Render writes before section i. */
  function Lead(ss: seq<Section>, i: nat): string
    requires i <= |ss|
  {
    if i == 0 then "" else Block(ss[0]) + "\n\n" + Lead(ss[1..], i - 1)
  }

  /** Text of the body section fed by optional value i: the command and the
      branch are inline code. */
  function SectionText(texts: seq<string>, i: nat): string
    requires i < |texts|
  {
    if i == 4 || i == 5 then "`" + texts[i] + "`" else texts[i]
  }

  /** The nine body sections, each under the name of the column that feeds it. */
  function Sections(texts: seq<string>): (ss: seq<Section>)
    requires |texts| == |BodyColumns|
    ensures |ss| == |BodyColumns|
  {
    seq(9, i requires 0 <= i < 9 => Section(BodyColumns[i], SectionText(texts, i)))
  }

  function Body(texts: seq<string>): string
    requires |texts| == |BodyColumns|
  {
    Render(Sections(texts))
  }

  /** One issue-creation request. */
  datatype Issue = Issue(title: string, body: string, labels: seq<string>, assignees: seq<string>)

  function ComposeIssue(r: Row, iaDefault: string, m: Mapping): Issue {
    var k := ResolveKey(r, iaDefault);
    Issue(IssueTitle(k), Body(Optionals(r, k)), Labels(k), Assignees(m, k.idAluno))
  }

  // ---------------------------------------------------------------------
  // Properties

  /** Upper-casing text that has no lower-case ASCII letter changes nothing. */
  lemma UpperOfUpper(s: string)
    requires forall i :: 0 <= i < |s| ==> !IsAsciiLower(s[i])
    ensures ToUpper(s) == s
  {
  }

  /** With the default --ia-default, the task-type is always one of the tags. */
  lemma TaskTypeWithSemiaDefault(cell: Cell)
    ensures IsTaskType(ResolveTaskType(cell, "SEMIA"))
  {
    UpperOfUpper("SEMIA");
  }

  /** The default PR title is the issue title. */
  lemma DefaultPrTitleIsTitle(k: Key)
    ensures DefaultPrTitle(k) == IssueTitle(k)
  {
    PrTitleTemplate(k);
  }

  /** Optional value i is the row's value when it is truthy, otherwise the
      DEFAULTS entry; for the PR title, the issue title. */
  lemma OptionalValue(r: Row, k: Key, i: nat)
    requires i < |BodyColumns|
    ensures Truthy(Get(r, BodyColumns[i], None)) ==> Optionals(r, k)[i] == Get(r, BodyColumns[i], None).value
    ensures !Truthy(Get(r, BodyColumns[i], None)) && i != 6 ==> Optionals(r, k)[i] == Default(DefaultKeys[i])
    ensures !Truthy(Get(r, BodyColumns[i], None)) && i == 6 ==> Optionals(r, k)[i] == IssueTitle(k)
  {
    if i == 6 {
      DefaultPrTitleIsTitle(k);
    }
  }

  /** The labels: five of them, the marker first, then four labels, each a
      "name:" prefix followed by the row's value; no two are equal. */
  lemma LabelsShape(k: Key)
    ensures |Labels(k)| == 5 && Labels(k)[0] == "tarefa"
    ensures Labels(k)[1][..|"Semana:"|] == "Semana:" && Labels(k)[1][|"Semana:"|..] == k.semana
    ensures Labels(k)[2][..|"SQUAD:"|] == "SQUAD:" && Labels(k)[2][|"SQUAD:"|..] == k.squad
    ensures Labels(k)[3][..|"IdAluno:"|] == "IdAluno:" && Labels(k)[3][|"IdAluno:"|..] == k.idAluno
    ensures Labels(k)[4][..|"IA:"|] == "IA:" && Labels(k)[4][|"IA:"|..] == k.ia
    ensures forall i, j :: 0 <= i < j < |Labels(k)| ==> Labels(k)[i] != Labels(k)[j]
  {
    var ls := Labels(k);
    forall i, j | 0 <= i < j < |ls| ensures ls[i] != ls[j] {
      assert ls[i][1] != ls[j][1] || ls[i][0] != ls[j][0];
    }
  }

  /** Render lays the sections out one after the other: section i starts
      after Lead(ss, i) and is followed by a blank line and the rest, or, when
      it is the last one, by a single newline. */
  lemma {:induction false} RenderAt(ss: seq<Section>, i: nat)
    requires i < |ss|
    ensures Render(ss) == Lead(ss, i) + Block(ss[i])
      + (if i == |ss| - 1 then "\n" else "\n\n" + Render(ss[i + 1..]))
  {
    if i > 0 {
      RenderAt(ss[1..], i - 1);
      assert ss[1..][i - 1] == ss[i];
      assert ss[1..][i..] == ss[i + 1..];
    }
  }

  /** Section i of the body: its column's name in bold on a line of its own,
      then its text, then a blank line, except after the ninth and last
      section, which ends in a single newline. */
  lemma BodyLayout(texts: seq<string>, i: nat)
    requires |texts| == |BodyColumns| && i < |BodyColumns|
    ensures Body(texts) == Lead(Sections(texts), i) + Block(Section(BodyColumns[i], SectionText(texts, i)))
      + (if i == 8 then "\n" else "\n\n" + Render(Sections(texts)[i + 1..]))
  {
    RenderAt(Sections(texts), i);
  }
}
