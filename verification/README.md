# GitHub issue import: context formatter

This project models `formatIssuesAsContext`, the formatter at the centre of the
GitHub issue import in `tests/github-import.mjs`. It takes an ordered list of
issue records and turns them into one markdown block for a larger context
document. The records have the shape of the parse-test mock (lines 15-18):
`number`, `title`, `body`, `labels` and `url`. The formatter reads only the
first three. The records it is actually called on (lines 32-35) have no
`labels` and no `url`; the model represents a missing `labels` as `[]` and a
missing `url` as `None`, and a missing or `null` body as `None`. The output is:

- a blank-line pair, the heading `## Imported GitHub Issues` and a blank line;
- then, for each issue in input order, the line `### #<number>: <title>`, a
  blank line, the body, and a blank line. An absent (`null`) or empty body is
  replaced by `(no description)`, following JavaScript's `||`.

Layout:

- `decimal.dfy`, module `Decimal`: how a template literal `${n}` prints a
  non-negative integer. `Render` writes the digits and `Value` reads them back.
  They are proved inverse in both directions.
- `github_import.dfy`, module `GithubImport`: the `Issue` record, whose `body`
  is an `Option` so that `null` stays distinct from `""`. It also holds the
  pure specification `Format` (the header followed by `Sections`, one
  `Section` per issue), the method `FormatIssuesAsContext`, and the lemmas
  about the output's structure. The method mirrors the source's
  `for ... of` loop that grows `md`, and is proved equal to `Format`.

Positions in the output are stated with `OccursAt(s, part, k)`: `part` appears
in `s` starting at index `k`. `Contains` models JavaScript's `includes`.
`SectionStart(issues, i)` is the index where issue `i`'s section begins.

## Model

| member | source | states |
|---|---|---|
| `GithubImport.FormatIssuesAsContext` | tests/github-import.mjs:37-44 | The loop that appends a sub-header and a body line per issue returns exactly `Format(issues)`, the header followed by the sections of all issues in input order. |
| `GithubImport.FormatStartsWithHeader` | tests/github-import.mjs:38 | Every output begins with `"\n\n## Imported GitHub Issues\n\n"`. |
| `GithubImport.FormatEmpty` | tests/github-import.mjs:38-43 | An empty list yields exactly the header, and that output contains no `###`. |
| `GithubImport.HasSubHeaderIffNonEmpty` | tests/github-import.mjs:38-42 | The output contains `###` if and only if the issue list is non-empty. |
| `GithubImport.SectionsAppend` | tests/github-import.mjs:39-42 | The sections of `xs + ys` are the sections of `xs` followed by the sections of `ys`. |
| `GithubImport.FormatAppend` | tests/github-import.mjs:39-42 | `Format(xs + ys) == Format(xs) + Sections(ys)`: later issues only append. |
| `GithubImport.SectionAt` | tests/github-import.mjs:39-42 | Issue `i`'s whole section appears in the output at `SectionStart(issues, i)`. Duplicate issues each get their own section. |
| `GithubImport.SectionLayout` | tests/github-import.mjs:40-41 | At its start, issue `i`'s section reads `"### #" + decimal(number) + ": " + title + "\n\n"`, then the body or fallback, then `"\n\n"`. Title and body are copied unescaped. |
| `GithubImport.SubHeaderLineAt` | tests/github-import.mjs:40 | When an issue's sub-header is `line + "\n\n"`, `line` appears where that issue's section starts. |
| `GithubImport.SectionsInOrder` | tests/github-import.mjs:39-42 | For `i < j`, issue `i`'s section ends no later than issue `j`'s section starts, and starts strictly before it. Nothing is sorted or reordered. |
| `GithubImport.BodyTextRule` | tests/github-import.mjs:41 | JavaScript truthiness picks the body: `null` and `""` give `(no description)`, any other body is kept as is, and the result is never empty. |
| `GithubImport.FallbackForFalsyBody` | tests/github-import.mjs:41 | An issue with a `null` or empty body shows `(no description)` directly after its sub-header. |
| `GithubImport.BodyVerbatim` | tests/github-import.mjs:41 | A non-empty body appears verbatim directly after its sub-header, newlines and markdown included. |
| `GithubImport.FormatIgnoresLabelsAndUrl` | tests/github-import.mjs:16-17 | Issues that agree on number, title and body format identically. `labels` and `url` are carried but never read. |
| `GithubImport.MockSubHeaders` | tests/github-import.mjs:16-17 | An example: applied to the parse-test records, which the source itself never formats, the formatter's sub-headers are `### #1: Issue 1` and `### #2: Issue 2`. |
| `GithubImport.FormattedMockIssues` | tests/github-import.mjs:15-18 | An example: applied to the parse-test records, which the source itself never formats, the output has issue 1's sub-header and `Body 1`, then issue 2's sub-header and `(no description)`, in that order. |
| `GithubImport.TestSubHeader` | tests/github-import.mjs:33 | Issue 42's sub-header is `### #42: Add auth` followed by a blank line. |
| `GithubImport.FormattedTestIssues` | tests/github-import.mjs:46-58 | The formatting test's output contains `## Imported GitHub Issues`, `### #42: Add auth` and `(no description)`. Issue 42's checklist body appears unchanged. |
| `Decimal.Render` | tests/github-import.mjs:40 | `${number}` gives non-empty decimal digits with no leading zero unless the number is 0. It is one digit exactly when the number is below 10. |
| `Decimal.ValueOfRender` | tests/github-import.mjs:40 | Reading back the rendered digits gives the number again. |
| `Decimal.RenderOfValue` | tests/github-import.mjs:40 | Rendering the value of any canonical digit string gives that string back. So `Render` is a bijection onto canonical digit strings. |
| `Decimal.RenderInjective` | tests/github-import.mjs:40 | Distinct issue numbers get distinct sub-header numbers. |

## Left out

- The `gh --version` availability probe (tests/github-import.mjs:9-11) is not modelled. It is a subprocess call whose only logic is comparing the exit status with zero.
- The live fetch from `cli/cli` (tests/github-import.mjs:61-85) is not modelled. It is process spawning and network access.
- `JSON.parse` and `JSON.stringify` (tests/github-import.mjs:15-27, 77) are library calls. The model takes the already-parsed list of `Issue` records. The parse checks at lines 20-27 confirm that the parse gives an array of two records, the first numbered 1 and the second with a `null` body. The model reflects the `null` body by making `body` an `Option`.
- `console.log`, `console.error` and `process.exit` are test output and control flow. They are not modelled.
- `Decimal.Render` covers only the non-negative integers that issue numbers are. JavaScript's printing of fractions, negative numbers and integers of 10^21 or more (exponent form) is not modelled. Numbers above 2^53, which a JavaScript Number cannot hold exactly, are not modelled either.
- Titles and bodies are taken to be strings, as `gh` emits them. The model does not cover how a template literal prints `undefined` or non-string values, or how `||` treats non-string bodies.
- Characters are Dafny `char`s. UTF-16 code units, surrogate pairs and any encoding of the output are not modelled.
