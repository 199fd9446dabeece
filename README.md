# Seeding task issues from a spreadsheet

A Dafny model of the core of `tools/seed_issues_from_excel.py`. The script
reads a spreadsheet of student tasks and opens one issue per row on a GitHub
repository. Each issue has a title, a nine-section body, five labels and at
most one assignee. Optional cells that are empty fall back to the `DEFAULTS`
table. One of those defaults, the PR title, is a `str.format` template filled
in from the row.

The model is split into five modules:

- `Text` (`text.dfy`) holds the Python string primitives the script relies
  on. These are `str.strip()` and `str.strip(chars)` (as `DropWhile`,
  `DropWhileEnd` and `Strip`), ASCII `lower()` and `upper()`, and the `Option`
  type that stands for a value or `None`. Truthiness of a cell is
  `Compose.Truthy`.
- `Template` (`template.dfy`) is the part of `str.format` that the
  `DEFAULTS` table uses: literal text, `{{`, `}}` and named fields. A missing
  argument or a stray brace is an error, `None`.
- `Slug` (`slug.dfy`) is `slugify`. `re.sub` over a character class is
  `ReplaceRuns`.
- `Compose` (`compose.dfy`) is the body of the row loop. It holds the
  `DEFAULTS` table and task-type resolution. It defaults the nine optional
  fields, formats the PR-title template and builds the labels, the
  assignees, the body and the title. `ComposeIssue` gives the issue-creation
  request of one row.
- `Sheet` (`sheet.dfy`) is the spreadsheet side of `main()`.
  - The data frame is a class `Table`. It has ordered columns, a map from
    column to cells and a height.
  - The required-column check is `Missing`.
  - The method `AddMissingColumns` adds the extra columns in place.
  - The row loop is `ComposeIssues`.
  - `Seed` puts the three together. It either aborts with the missing
    columns, leaving the table untouched, or returns one request per row.

Cells are `Option<string>`. `None` is Python's `None`, which is what the fill
loop writes. A cell is truthy when it is `Some` of a non-empty string, and
`str(None)` is `"None"`. A row is a map from column name to cell, which gives
`r.get` its semantics.

Some facts about the script that shape the model:

- The body has nine sections (lines 99-109).
- The fill loop adds up to ten columns, `IA` among them (line 58).
- With every optional cell empty, the body holds eight `DEFAULTS` strings
  verbatim. The ninth, the PR title, is the `TituloPR` template formatted
  with the row's values (line 78), and `DefaultPrTitleIsTitle` shows that it
  equals the issue title.
- The branch default keeps its `<IdAluno>`, `<slug>` and `<COMIA|SEMIA>`
  placeholders, because the script never fills them in (lines 13 and 77).
- `main()` never calls `slugify`, so `Slug` stands on its own.

## Model

| member | source | states |
|---|---|---|
| Text.ToLower | tools/seed_issues_from_excel.py:28 | `str.lower()` character by character with `LowerChar`; `AlnumsLower` and `TrimLowerAlnums` state what it keeps |
| Text.ToUpper | tools/seed_issues_from_excel.py:68 | `str.upper()` character by character with `UpperChar`; `ResolveTaskType` and `TaskTypeWithSemiaDefault` state its use |
| Text.LowerChar | tools/seed_issues_from_excel.py:28 | lower-casing a character maps A-Z to a-z and fixes every other character, so it keeps [a-zA-Z0-9] membership |
| Text.UpperChar | tools/seed_issues_from_excel.py:68 | upper-casing maps a-z to A-Z and fixes every other character |
| Text.DropWhile | tools/seed_issues_from_excel.py:29 | the left half of `strip(chars)`: drops the longest prefix of stripped characters; `DropWhileSpec` states it |
| Text.DropWhileEnd | tools/seed_issues_from_excel.py:29 | the right half of `strip(chars)`: drops the longest suffix of stripped characters; `DropWhileEndSpec` states it |
| Text.Strip | tools/seed_issues_from_excel.py:29 | `strip(chars)`: both halves in turn; `StripSpec` states it |
| Text.DropWhileSpec | tools/seed_issues_from_excel.py:29 | what a left strip removes is a prefix of stripped characters, and the rest does not start with one |
| Text.DropWhileEndSpec | tools/seed_issues_from_excel.py:29 | what a right strip removes is a suffix of stripped characters, and the rest does not end with one |
| Text.Trim | tools/seed_issues_from_excel.py:64 | `str.strip()` with no argument: `Strip` over the characters of `str.isspace()`; `StripSpec` states its result |
| Text.StripSpec | tools/seed_issues_from_excel.py:64 | `strip` keeps a slice that neither starts nor ends with a stripped character; it is empty iff every character is stripped; it is the identity on text with no stripped character at either end |
| Template.Format | tools/seed_issues_from_excel.py:78 | `str.format` with keyword arguments: literal text, `{{`, `}}` and `{name}`, and `None` for a stray brace or a missing argument; `FormatLiteral`, `FormatField` and `PrTitleTemplate` state it |
| Template.IndexOf | tools/seed_issues_from_excel.py:78 | the position of the first closing brace of a field, or the length when there is none |
| Template.FormatLiteral | tools/seed_issues_from_excel.py:78 | `format` copies brace-free literal text through unchanged in front of whatever the rest formats to |
| Template.FormatField | tools/seed_issues_from_excel.py:78 | `format` replaces a field `{name}` by its keyword argument |
| Template.FormatPlain | tools/seed_issues_from_excel.py:78 | brace-free text formats to itself |
| Template.FormatStep | tools/seed_issues_from_excel.py:78 | literal text followed by a field formats to the literal text followed by the argument |
| Template.FormatPair | tools/seed_issues_from_excel.py:78 | two literal-and-field steps format in order |
| Slug.ReplaceRuns | tools/seed_issues_from_excel.py:28-29 | `re.sub(r"[...]+", "-", s)`: every maximal run of class characters becomes one dash in its place; `ReplaceRunsJoin` states where each dash goes, and the other `ReplaceRuns*` lemmas and `AlnumsReplaceRuns` state what is kept |
| Slug.DropWhileRun | tools/seed_issues_from_excel.py:28 | a run of class characters is consumed up to the first character outside the class, and no further |
| Slug.ReplaceRunsJoin | tools/seed_issues_from_excel.py:28-29 | text outside the class is copied, the maximal run after it becomes exactly one dash in its place, and the replacement continues after the run |
| Slug.ReplaceRunsHead | tools/seed_issues_from_excel.py:28 | replacing runs gives empty output iff the input is empty, and the output starts with a dash iff the input starts with a class character |
| Slug.ReplaceRunsChars | tools/seed_issues_from_excel.py:28 | after `re.sub(r"[^a-zA-Z0-9]+", "-", …)` every character is a dash or an input character outside the class |
| Slug.ReplaceRunsIsolated | tools/seed_issues_from_excel.py:29 | after `re.sub(r"-+", "-", …)` no two dashes are adjacent |
| Slug.ReplaceRunsFixed | tools/seed_issues_from_excel.py:29 | text whose class characters are isolated dashes is left unchanged |
| Slug.StripSlice | tools/seed_issues_from_excel.py:29 | `strip("-")` keeps the slug alphabet and the absence of `--` |
| Slug.AlnumsAppend | tools/seed_issues_from_excel.py:28 | the letters and digits of a concatenation are those of each part, in order |
| Slug.AlnumsNone | tools/seed_issues_from_excel.py:28 | text without a letter or digit contributes none |
| Slug.AlnumsDropWhile | tools/seed_issues_from_excel.py:29 | removing a leading run of non-alphanumerics keeps the letters and digits |
| Slug.AlnumsDropWhileEnd | tools/seed_issues_from_excel.py:29 | removing a trailing run of non-alphanumerics keeps the letters and digits |
| Slug.AlnumsStrip | tools/seed_issues_from_excel.py:28 | `strip` of non-alphanumerics keeps the letters and digits |
| Slug.AlnumsReplaceRuns | tools/seed_issues_from_excel.py:28 | replacing runs of non-alphanumerics keeps the letters and digits in order |
| Slug.AlnumsLower | tools/seed_issues_from_excel.py:28 | lower-casing commutes with taking the letters and digits |
| Slug.Normalise | tools/seed_issues_from_excel.py:28-29 | the text `slugify` has before its fallback; `NormaliseAlnums` and `SlugifyFallback` state it |
| Slug.Slugify | tools/seed_issues_from_excel.py:26-30 | `slugify`: strip, lower, replace runs, collapse dashes, strip dashes, fall back to `tarefa`; `SlugifyIsSlug`, `SlugifyFallback` and `SlugifyIdempotent` state it |
| Slug.SlugifyIsSlug | tools/seed_issues_from_excel.py:26-30 | every slug is non-empty, over [a-z0-9-], has no dash at either end and no `--` |
| Slug.FallbackIsSlug | tools/seed_issues_from_excel.py:30 | the fallback `tarefa` has that shape |
| Slug.TrimLowerAlnums | tools/seed_issues_from_excel.py:28 | strip and lower keep the letters and digits, lower-cased |
| Slug.DashingAlnums | tools/seed_issues_from_excel.py:28-29 | the two substitutions and the dash strip keep the letters and digits |
| Slug.NormaliseAlnums | tools/seed_issues_from_excel.py:28-29 | the text before the fallback holds exactly the input's letters and digits, lower-cased, in order |
| Slug.SlugifyFallback | tools/seed_issues_from_excel.py:30 | the fallback is taken iff the input has no ASCII letter or digit; otherwise the slug's letters and digits are the input's, lower-cased, in order |
| Slug.SlugFixedPoint | tools/seed_issues_from_excel.py:26-30 | a string of slug shape slugifies to itself |
| Slug.SlugifyIdempotent | tools/seed_issues_from_excel.py:26-30 | `slugify(slugify(t)) == slugify(t)` |
| Slug.ToLowerAppend | tools/seed_issues_from_excel.py:28 | lower-casing a concatenation lower-cases each part |
| Slug.SlugifyTwoWords | tools/seed_issues_from_excel.py:26-30 | two non-empty runs of ASCII letters and digits separated by a non-empty run of other characters slugify to the two runs, lower-cased, joined by one dash |
| Slug.SlugifyHelloWorld | tools/seed_issues_from_excel.py:26-30 | `slugify("Hello World") == "hello-world"` |
| Compose.Default | tools/seed_issues_from_excel.py:7-17 | the `DEFAULTS` table, entry by entry; `OptionalValue` and `PrTitleTemplate` state its use |
| Compose.Required | tools/seed_issues_from_excel.py:64-67 | `str(r.get(column, "")).strip()`, with `str(None)` as `"None"`; `StripSpec` states the strip |
| Compose.Truthy | tools/seed_issues_from_excel.py:68 | Python truthiness of a cell: `None` and `""` are false; `OptionalValue` and `ResolveTaskType` state its use |
| Compose.Or | tools/seed_issues_from_excel.py:72-80 | `cell or fallback`; `OptionalValue` states it |
| Compose.Str | tools/seed_issues_from_excel.py:64-67 | `str(cell)`, with `str(None)` as `"None"`; used by `Required` |
| Compose.Get | tools/seed_issues_from_excel.py:64-80 | `r.get(column, default)`; `RowsComplete` states that after the fill no lookup of a required or extra column falls back |
| Compose.ResolveKey | tools/seed_issues_from_excel.py:64-70 | the row's week, student id, squad and task, each `Required`, and its task type, `ResolveTaskType` of the `IA` cell, which states it |
| Compose.ResolveTaskType | tools/seed_issues_from_excel.py:68-70 | the task type is COMIA or SEMIA or the upper-cased default. It is a tag whenever the upper-cased default is one. Each of the four branches is stated: truthy or falsy cell, tag or not |
| Compose.TaskTypeWithSemiaDefault | tools/seed_issues_from_excel.py:68-70 | with the default `SEMIA` the task type is always a tag |
| Compose.IssueTitle | tools/seed_issues_from_excel.py:111 | the title f-string; `PrTitleTemplate` shows the PR-title template formats to it |
| Compose.PrTitleTemplate | tools/seed_issues_from_excel.py:78 | formatting `DEFAULTS["TituloPR"]` with the row's five values never fails and yields the issue title |
| Compose.DefaultPrTitle | tools/seed_issues_from_excel.py:78 | `DEFAULTS["TituloPR"].format(...)` with the row's values; `PrTitleTemplate` shows the formatting succeeds and `DefaultPrTitleIsTitle` that it is the issue title |
| Compose.DefaultFor | tools/seed_issues_from_excel.py:72-80 | the right-hand side of each `or`: the `DEFAULTS` entry, or the formatted PR title; `OptionalValue` states it |
| Compose.DefaultPrTitleIsTitle | tools/seed_issues_from_excel.py:78 | the default PR title equals the issue title |
| Compose.Optionals | tools/seed_issues_from_excel.py:72-80 | there are nine optional values, one per body column |
| Compose.OptionalValue | tools/seed_issues_from_excel.py:72-80 | each optional value is the row's cell when truthy; otherwise it is the `DEFAULTS` entry, or the issue title for the PR title |
| Compose.Labels | tools/seed_issues_from_excel.py:82 | the five labels; `LabelsShape` states them |
| Compose.LabelsShape | tools/seed_issues_from_excel.py:82 | exactly five labels, `tarefa` first, then `Semana:`, `SQUAD:`, `IdAluno:` and `IA:` each followed by the row's week, squad, student and task type. No two labels are equal |
| Compose.Assignees | tools/seed_issues_from_excel.py:94-97 | at most one assignee. There is one iff the student's mapping entry is a record with a truthy login, and it is that login |
| Compose.Sections | tools/seed_issues_from_excel.py:99-109 | the body has nine sections, one per body column |
| Compose.Render | tools/seed_issues_from_excel.py:99-109 | bold-headed sections joined by blank lines, the last ending in one newline; `RenderAt` states it |
| Compose.Body | tools/seed_issues_from_excel.py:99-109 | the issue body from the nine optional values; `BodyLayout` states each section |
| Compose.ComposeIssue | tools/seed_issues_from_excel.py:64-111 | one row's request: title, body, labels and assignees from the resolved key; `OptionalValue`, `LabelsShape`, `Assignees` and `BodyLayout` state its parts |
| Compose.RenderAt | tools/seed_issues_from_excel.py:99-109 | each section is followed by a blank line and the next one, and the last by a single newline |
| Compose.BodyLayout | tools/seed_issues_from_excel.py:99-109 | section i of the body is its column's name in bold on its own line, then its text (in backticks for the command and the branch), then `\n\n`, or `\n` after the ninth |
| Sheet.Missing | tools/seed_issues_from_excel.py:51-52 | the missing list holds exactly the required columns absent from the sheet, in required order |
| Sheet.Filled | tools/seed_issues_from_excel.py:58-61 | the column list after the fill loop; `FilledSpec` states it |
| Sheet.FilledSpec | tools/seed_issues_from_excel.py:58-61 | the fill keeps the existing columns as a prefix and appends the absent names. Afterwards a column is present iff it was before or is an extra. No column appears twice |
| Sheet.Table.constructor | tools/seed_issues_from_excel.py:50 | a data frame with the given columns and cells |
| Sheet.Table.Row | tools/seed_issues_from_excel.py:63 | the row `iterrows` yields for line i: every column's cell on that line; `RowsComplete` states which columns it has after the fill |
| Sheet.Table.AddMissingColumns | tools/seed_issues_from_excel.py:58-61 | the fill changes only the columns, and they end as the fill of the old ones. Every extra is then present. Existing cells are unchanged, added columns are all `None`, and the height is kept |
| Sheet.ComposeIssues | tools/seed_issues_from_excel.py:63 | the row loop yields one request per row, in row order |
| Sheet.Seed | tools/seed_issues_from_excel.py:51-63 | a missing required column aborts with the missing list and leaves the sheet untouched. Otherwise the extras are filled: the existing cells are unchanged, the added columns are all `None`, and request i is `ComposeIssue` of row i |
| Sheet.RowsComplete | tools/seed_issues_from_excel.py:59-61 | after the fill every row has a cell for every required and extra column |

## Left out

- The GitHub client is not modelled. Logging in, `get_repo`, the label loop (`get_label`, `create_label` and its warning) and `create_issue` with its error report are calls into a remote service. The model stops at the request each row would send.
- A failed issue creation only prints an error and moves on, so it does not change what is composed.
- Argument parsing is left out. The default `--ia-default` of `SEMIA` appears only as the argument of `TaskTypeWithSemiaDefault`.
- `print`, `sys.exit` and the exit codes are left out. An abort is the `Aborted` outcome.
- `load_mapping` is left out because it reads a YAML file. The mapping is a parameter, and an entry is a record with an optional login or any other value.
- The check that the Excel file exists is left out, and so is `pd.read_excel`. The table is a parameter.
- pandas cell types other than text and `None` are not modelled. These are NaN, numbers and dates.
- NaN cells: an empty cell in an optional column the sheet already has arrives from pandas as NaN, which is truthy. The script then never falls back to `DEFAULTS` for it and the body shows `nan`. In the model the default path is reached only by a `None` cell of a column the fill added, or by `""`.
- Numeric YAML keys: a mapping key written as an unquoted number, such as `42:`, loads as an integer, and `mapping.get(str(idaluno))` (line 95) misses it. The model's mapping has string keys, so it cannot show that miss.
- Duplicate column names in a sheet are not modelled. A `Table` has distinct columns.
- Case mapping covers ASCII letters only. Python's `lower()` and `upper()` also map non-ASCII letters, and both can lengthen a string (`upper()` maps `ß` to `SS`, `lower()` maps `İ` to two code points). This has visible costs:
  - Python's `"\u212a".lower()` (the Kelvin sign) is `"k"`, so the real `slugify("\u212a")` is `"k"`. `SlugifyFallback` (fallback iff no ASCII letter or digit) gives `"tarefa"`.
  - Python's `"comıa".upper()` (dotless ı) is `"COMIA"`, so line 68 keeps that row's tag where `ResolveTaskType` falls back to the default.
- `Slugify` takes a string; line 28 applies `str(text)` to any value first, which the model leaves to its caller.
- `str.format` is modelled only for literal text, `{{`, `}}` and `{name}`. Positional fields, attribute and index access, conversions and format specs are left out; the template uses none of them.
- `re.sub` is modelled only for the two character classes `slugify` uses.
