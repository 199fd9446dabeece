/** The spreadsheet side of main() in tools/seed_issues_from_excel.py: the
    required-column check, the loop that adds the missing extra columns
    filled with None, and the loop over the rows that builds one
    issue-creation request per row. */
module Sheet {
  import opened Text
  import opened Compose

  /** The columns a sheet must have. */
  const RequiredColumns: seq<string> := ["Semana", "Id Aluno", "SQUAD", "Tarefa"]

  /** The columns added, empty, when the sheet lacks them. */
  const Extras: seq<string> := [
    "Descrição", "Entregáveis", "Critérios de Aceite", "Arquivos Sugeridos", "Comando de Verificação",
    "Branch Sugerida", "Título do PR", "Revisor", "Observações", "IA"
  ]

  /** a is b with some elements left out, order kept. */
  predicate IsSubsequence(a: seq<string>, b: seq<string>)
    decreases |b|
  {
    if a == [] then true
    else if b == [] then false
    else (a[0] == b[0] && IsSubsequence(a[1..], b[1..])) || IsSubsequence(a, b[1..])
  }

  /** [c for c in required if c not in columns] */
  function Missing(required: seq<string>, columns: seq<string>): (miss: seq<string>)
    ensures forall c :: c in miss <==> c in required && c !in columns
    ensures IsSubsequence(miss, required)
  {
    if required == [] then []
    else if required[0] in columns then Missing(required[1..], columns)
    else [required[0]] + Missing(required[1..], columns)
  }

  /** The columns after `for c in names: if c not in columns: add c`. */
  function Filled(columns: seq<string>, names: seq<string>): seq<string>
    decreases |names|
  {
    if names == [] then columns
    else Filled(if names[0] in columns then columns else columns + [names[0]], names[1..])
  }

  predicate Distinct(s: seq<string>) {
    forall i, j :: 0 <= i < j < |s| ==> s[i] != s[j]
  }

  /** The fill keeps the existing columns, in place, and appends each name
      that was absent, so that afterwards every name is present and no column
      appears twice. */
  lemma {:induction false} FilledSpec(columns: seq<string>, names: seq<string>)
    ensures columns <= Filled(columns, names)
    ensures forall c :: c in Filled(columns, names) <==> c in columns || c in names
    ensures Distinct(columns) ==> Distinct(Filled(columns, names))
    decreases |names|
  {
    if names != [] {
      var next := if names[0] in columns then columns else columns + [names[0]];
      FilledSpec(next, names[1..]);
      assert forall c :: c in names <==> c == names[0] || c in names[1..];
    }
  }

  /** A column made of height None cells. */
  function Nones(height: nat): seq<Cell> {
    seq(height, _ => None)
  }

  /** A data frame: an ordered list of distinct column names, the cells of
      each column from top to bottom, and the number of rows. */
  class Table {
    var columns: seq<string>
    var cells: map<string, seq<Cell>>
    var height: nat

    ghost predicate Valid()
      reads this
    {
      && Distinct(columns)
      && (forall c :: c in cells <==> c in columns)
      && (forall c :: c in cells ==> |cells[c]| == height)
    }

    constructor (columns: seq<string>, cells: map<string, seq<Cell>>, height: nat)
      requires Distinct(columns)
      requires forall c :: c in cells <==> c in columns
      requires forall c :: c in cells ==> |cells[c]| == height
      ensures Valid()
      ensures this.columns == columns && this.cells == cells && this.height == height
    {
      this.columns := columns;
      this.cells := cells;
      this.height := height;
    }

    /** Row i, as df.iterrows() yields it: every column's cell in that row. */
    function Row(i: nat): Row
      reads this
      requires Valid() && i < height
    {
      map c | c in cells :: cells[c][i]
    }

    /** The rows, top to bottom. */
    function Rows(): seq<Row>
      reads this
      requires Valid()
    {
      seq(height, i reads this requires Valid() && 0 <= i < height => Row(i))
    }

    /** `for c in names: if c not in df.columns: df[c] = None` */
    method AddMissingColumns(names: seq<string>)
      requires Valid()
      modifies this
      ensures Valid()
      ensures height == old(height)
      ensures columns == Filled(old(columns), names)
      ensures old(columns) <= columns
      ensures forall c :: c in names ==> c in columns
      ensures forall c :: c in old(cells) ==> c in cells && cells[c] == old(cells)[c]
      ensures forall c :: c in cells && c !in old(cells) ==> cells[c] == Nones(height)
    {
      var k := 0;
      while k < |names|
        invariant 0 <= k <= |names|
        invariant Valid()
        invariant height == old(height)
        invariant Filled(columns, names[k..]) == Filled(old(columns), names)
        invariant forall c :: c in old(cells) ==> c in cells && cells[c] == old(cells)[c]
        invariant forall c :: c in cells && c !in old(cells) ==> cells[c] == Nones(height)
      {
        var c := names[k];
        assert names[k..][1..] == names[k + 1..];
        if c !in columns {
          columns := columns + [c];
          cells := cells[c := Nones(height)];
        }
        k := k + 1;
      }
      FilledSpec(old(columns), names);
    }
  }

  /** `for _, r in df.iterrows(): ...`: the rows in order, each turned into
      its request by compose. */
  method ComposeIssues(rows: seq<Row>, compose: Row -> Issue) returns (issues: seq<Issue>)
    ensures |issues| == |rows|
    ensures forall i :: 0 <= i < |rows| ==> issues[i] == compose(rows[i])
  {
    issues := [];
    var i := 0;
    while i < |rows|
      invariant 0 <= i <= |rows|
      invariant |issues| == i
      invariant forall j :: 0 <= j < i ==> issues[j] == compose(rows[j])
    {
      issues := issues + [compose(rows[i])];
      i := i + 1;
    }
  }

  /** What a run ends with: the list of missing required columns, or the
      requests for every row. */
  datatype Outcome = Aborted(missing: seq<string>) | Created(issues: seq<Issue>)

  /** Lines 51-63 and the row loop: abort before touching the sheet when a
      required column is missing, otherwise add the extras and compose one
      request per row. */
  method Seed(t: Table, iaDefault: string, mapping: Mapping) returns (out: Outcome)
    requires t.Valid()
    modifies t
    ensures t.Valid()
    ensures Missing(RequiredColumns, old(t.columns)) != [] ==>
      out == Aborted(Missing(RequiredColumns, old(t.columns))) && unchanged(t)
    ensures Missing(RequiredColumns, old(t.columns)) == [] ==>
      && out.Created?
      && t.columns == Filled(old(t.columns), Extras)
      && t.height == old(t.height)
      && (forall c :: c in old(t.cells) ==> c in t.cells && t.cells[c] == old(t.cells)[c])
      && (forall c :: c in t.cells && c !in old(t.cells) ==> t.cells[c] == Nones(t.height))
      && |out.issues| == t.height
      && forall i :: 0 <= i < t.height ==> out.issues[i] == ComposeIssue(t.Row(i), iaDefault, mapping)
  {
    var miss := Missing(RequiredColumns, t.columns);
    if miss != [] {
      return Aborted(miss);
    }
    t.AddMissingColumns(Extras);
    var issues := ComposeIssues(t.Rows(), r => ComposeIssue(r, iaDefault, mapping));
    out := Created(issues);
  }

  /** After the fill every row has a cell for every required and extra
      column, so no r.get falls back to its default. */
  lemma RowsComplete(t: Table, i: nat)
    requires t.Valid() && i < t.height
    requires Missing(RequiredColumns, t.columns) == []
    requires forall c :: c in Extras ==> c in t.columns
    ensures forall c :: c in RequiredColumns || c in Extras ==> c in t.Row(i)
  {
  }
}
