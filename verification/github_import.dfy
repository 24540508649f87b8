/** The markdown context block built from a list of imported GitHub issues
    (formatIssuesAsContext): a fixed header followed, in input order, by one
    section per issue holding its number, its title and its body or a
    fallback text. */
module GithubImport {
  import Decimal

  /** A JSON value that may be `null`. */
  datatype Option<T> = None | Some(value: T)

  datatype Label = Label(name: string)

  /** An issue record, shaped like the parse-test mock: number, title, body,
      labels and url. A missing or `null` body is `None`. The records built by
      hand for the formatter have neither labels nor url: a missing `labels`
      is `[]` and a missing `url` is `None`. */
  datatype Issue = Issue(
    number: nat,
    title: string,
    body: Option<string>,
    labels: seq<Label>,
    url: Option<string>)

  /** The context block opens with a blank-line pair, this heading and a blank line. */
  const Title: string := "## Imported GitHub Issues"
  const Header: string := "\n\n" + Title + "\n\n"
  const Fallback: string := "(no description)"
  const BlankLine: string := "\n\n"

  /** JavaScript truthiness of a string-or-null: `null` and "" are falsy. */
  predicate Truthy(body: Option<string>) {
    body.Some? && body.value != ""
  }

  /** `issue.body || "(no description)"`. */
  function BodyText(body: Option<string>): string {
    if Truthy(body) then body.value else Fallback
  }

  /** `null` and "" both fall back to `(no description)`; any other body is
      kept as it is; either way the body line is never empty. */
  lemma BodyTextRule(body: Option<string>)
    ensures BodyText(body) != ""
    ensures body.None? ==> BodyText(body) == Fallback
    ensures body == Some("") ==> BodyText(body) == Fallback
    ensures body.Some? && body.value != "" ==> BodyText(body) == body.value
  {
  }

  /** The sub-header line `### #<number>: <title>` and the blank line after it. */
  function SubHeader(issue: Issue): string {
    "### #" + Decimal.Render(issue.number) + ": " + issue.title + BlankLine
  }

  /** Everything one loop iteration appends for `issue`. */
  function Section(issue: Issue): string {
    SubHeader(issue) + BodyText(issue.body) + BlankLine
  }

  /** The sections of all issues, concatenated in input order. */
  function Sections(issues: seq<Issue>): string {
    if issues == [] then ""
    else Sections(issues[..|issues| - 1]) + Section(issues[|issues| - 1])
  }

  /** The whole context block. */
  function Format(issues: seq<Issue>): string {
    Header + Sections(issues)
  }

  /** formatIssuesAsContext: the loop that grows `md` one section at a time. */
  method FormatIssuesAsContext(issues: seq<Issue>) returns (md: string)
    ensures md == Format(issues)
  {
    md := Header;
    for i := 0 to |issues|
      invariant md == Header + Sections(issues[..i])
    {
      var issue := issues[i];
      ghost var done := md;
      md := md + SubHeader(issue);
      md := md + BodyText(issue.body) + BlankLine;
      Assoc(done, SubHeader(issue), BodyText(issue.body));
      Assoc(done, SubHeader(issue) + BodyText(issue.body), BlankLine);
      SectionsSnoc(issues, i);
      Assoc(Header, Sections(issues[..i]), Section(issue));
    }
    assert issues[..|issues|] == issues;
  }

  // ---------------------------------------------------------------------
  // Structure of the output

  /** Formatting a concatenation appends the sections of the second part. */
  lemma {:induction false} SectionsAppend(xs: seq<Issue>, ys: seq<Issue>)
    ensures Sections(xs + ys) == Sections(xs) + Sections(ys)
    decreases |ys|
  {
    if ys != [] {
      var zs := xs + ys;
      var ys' := ys[..|ys| - 1];
      assert zs[..|zs| - 1] == xs + ys';
      assert zs[|zs| - 1] == ys[|ys| - 1];
      SectionsAppend(xs, ys');
    } else {
      assert xs + ys == xs;
    }
  }

  /** Taking one more issue adds exactly its section. */
  lemma SectionsSnoc(issues: seq<Issue>, i: nat)
    requires i < |issues|
    ensures Sections(issues[..i + 1]) == Sections(issues[..i]) + Section(issues[i])
  {
    assert issues[..i + 1][..i] == issues[..i];
  }

  lemma FormatAppend(xs: seq<Issue>, ys: seq<Issue>)
    ensures Format(xs + ys) == Format(xs) + Sections(ys)
  {
    SectionsAppend(xs, ys);
  }

  /** Every output begins with the header. */
  lemma FormatStartsWithHeader(issues: seq<Issue>)
    ensures OccursAt(Format(issues), Header, 0)
  {
    SliceMiddle([], Header, Sections(issues));
    assert Format(issues) == [] + Header + Sections(issues);
  }

  /** An empty list gives exactly the header, which holds no `###`. */
  lemma FormatEmpty()
    ensures Format([]) == Header
    ensures !Contains(Format([]), "###")
  {
    HeaderHasNoSubHeaderMark();
  }

  /** `part` occurs in `s` starting at index `k`. */
  predicate OccursAt(s: string, part: string, k: int) {
    0 <= k <= |s| - |part| && s[k..k + |part|] == part
  }

  /** JavaScript's `s.includes(part)`. */
  predicate Contains(s: string, part: string) {
    exists k :: 0 <= k <= |s| - |part| && OccursAt(s, part, k)
  }

  /** Regrouping a concatenation; stated apart so that the loop proof in
      FormatIssuesAsContext stays cheap. */
  lemma Assoc(a: string, b: string, c: string)
    ensures (a + b) + c == a + (b + c)
  {
  }

  /** Regrouping a concatenation; stated apart so that the proof of
      SectionAt stays cheap. */
  lemma Regroup(h: string, p: string, s: string, r: string)
    ensures h + (p + (s + r)) == (h + p) + s + r
  {
  }

  /** An occurrence of `a + b + c` is an occurrence of each part, one after the other. */
  lemma SplitThree(r: string, p: int, a: string, b: string, c: string)
    requires OccursAt(r, a + b + c, p)
    ensures OccursAt(r, a, p)
    ensures OccursAt(r, b, p + |a|)
    ensures OccursAt(r, c, p + |a| + |b|)
  {
    var w := a + b + c;
    SliceMiddle([], a, b + c);
    assert w == [] + a + (b + c);
    OccursWithin(r, w, p, a, 0);
    SliceMiddle(a, b, c);
    OccursWithin(r, w, p, b, |a|);
    SliceMiddle(a + b, c, []);
    assert w == (a + b) + c + [];
    OccursWithin(r, w, p, c, |a| + |b|);
  }

  /** The middle piece of a three-part concatenation, found at its offset. */
  lemma SliceMiddle(a: string, b: string, c: string)
    ensures |a| + |b| <= |a + b + c|
    ensures (a + b + c)[|a|..|a| + |b|] == b
  {
  }

  lemma HeaderHasNoSubHeaderMark()
    ensures !Contains(Header, "###")
  {
    var tail := " Imported GitHub Issues\n\n";
    assert Header == "\n\n##" + tail;
    assert '#' !in tail;
    forall k | 0 <= k <= |Header| - 3
      ensures !OccursAt(Header, "###", k)
    {
      if k < 2 {
        assert Header[k..k + 3][0] == Header[k] == '\n';
      } else {
        assert Header[k..k + 3][2] == Header[k + 2] == tail[k - 2];
      }
    }
  }

  /** Where the section of issue `i` begins in the output. */
  function SectionStart(issues: seq<Issue>, i: nat): nat
    requires i <= |issues|
  {
    |Header| + |Sections(issues[..i])|
  }

  /** An occurrence inside an occurrence is an occurrence in the whole. */
  lemma OccursWithin(s: string, part: string, k: int, sub: string, j: int)
    requires OccursAt(s, part, k) && OccursAt(part, sub, j)
    ensures OccursAt(s, sub, k + j)
  {
    forall t | 0 <= t < |sub|
      ensures s[k + j..k + j + |sub|][t] == sub[t]
    {
      assert s[k + j + t] == s[k..k + |part|][j + t];
      assert sub[t] == part[j..j + |sub|][t];
    }
  }

  lemma {:induction false} SingleSection(issue: Issue)
    ensures Sections([issue]) == Section(issue)
  {
    assert [issue][..0] == [];
  }

  /** Issue `i`'s section sits in the output at SectionStart. */
  lemma SectionAt(issues: seq<Issue>, i: nat)
    requires i < |issues|
    ensures OccursAt(Format(issues), Section(issues[i]), SectionStart(issues, i))
  {
    var issue := issues[i];
    var pre, rest := issues[..i], issues[i + 1..];
    assert issues == pre + ([issue] + rest);
    SectionsAppend(pre, [issue] + rest);
    SectionsAppend([issue], rest);
    SingleSection(issue);
    Regroup(Header, Sections(pre), Section(issue), Sections(rest));
    SliceMiddle(Header + Sections(pre), Section(issue), Sections(rest));
  }

  /** Issue `i`'s section is laid out as the line `### #<number>: <title>`,
      a blank line, the body or the fallback, and a blank line; number,
      title and body are copied without escaping. */
  lemma SectionLayout(issues: seq<Issue>, i: nat)
    requires i < |issues|
    ensures var issue, r, p := issues[i], Format(issues), SectionStart(issues, i);
      var line := "### #" + Decimal.Render(issue.number) + ": " + issue.title + "\n\n";
      var text := BodyText(issue.body);
      OccursAt(r, line, p) &&
      OccursAt(r, text, p + |line|) &&
      OccursAt(r, "\n\n", p + |line| + |text|)
  {
    var issue := issues[i];
    SectionAt(issues, i);
    SplitThree(Format(issues), SectionStart(issues, i),
               SubHeader(issue), BodyText(issue.body), BlankLine);
  }

  /** The sub-header line without its trailing blank line, found where the section starts. */
  lemma SubHeaderLineAt(issues: seq<Issue>, i: nat, line: string)
    requires i < |issues| && SubHeader(issues[i]) == line + BlankLine
    ensures OccursAt(Format(issues), line, SectionStart(issues, i))
  {
    SectionLayout(issues, i);
    SliceMiddle([], line, BlankLine);
    assert line + BlankLine == [] + line + BlankLine;
    OccursWithin(Format(issues), line + BlankLine, SectionStart(issues, i), line, 0);
  }

  /** For i < j, issue i's section ends no later than issue j's begins: the
      sections follow input order, with nothing sorted or merged. */
  lemma SectionsInOrder(issues: seq<Issue>, i: nat, j: nat)
    requires i < j <= |issues|
    ensures SectionStart(issues, i) + |Section(issues[i])| <= SectionStart(issues, j)
    ensures SectionStart(issues, i) < SectionStart(issues, j)
  {
    var a, b := issues[..i], issues[i + 1..j];
    assert issues[..j] == a + ([issues[i]] + b);
    SectionsAppend(a, [issues[i]] + b);
    SectionsAppend([issues[i]], b);
    SingleSection(issues[i]);
    assert |Section(issues[i])| >= |"### #"|;
  }

  /** The output holds `###` exactly when there is at least one issue. */
  lemma HasSubHeaderIffNonEmpty(issues: seq<Issue>)
    ensures Contains(Format(issues), "###") <==> issues != []
  {
    if issues == [] {
      FormatEmpty();
    } else {
      var sec := Section(issues[0]);
      SectionAt(issues, 0);
      assert OccursAt(sec, "###", 0) by {
        assert sec[..3] == sec[..5][..3];
      }
      OccursWithin(Format(issues), sec, SectionStart(issues, 0), "###", 0);
    }
  }

  /** An issue whose body is `null` or "" shows `(no description)` right
      after its sub-header. */
  lemma FallbackForFalsyBody(issues: seq<Issue>, i: nat)
    requires i < |issues|
    requires issues[i].body.None? || issues[i].body == Some("")
    ensures OccursAt(Format(issues), Fallback, SectionStart(issues, i) + |SubHeader(issues[i])|)
  {
    SectionLayout(issues, i);
  }

  /** A non-empty body is copied verbatim right after its sub-header,
      embedded newlines and markdown such as `- [ ]` included. */
  lemma BodyVerbatim(issues: seq<Issue>, i: nat, b: string)
    requires i < |issues|
    requires issues[i].body == Some(b) && b != ""
    ensures OccursAt(Format(issues), b, SectionStart(issues, i) + |SubHeader(issues[i])|)
  {
    SectionLayout(issues, i);
  }

  /** Two issues the formatter cannot tell apart: `labels` and `url` are not read. */
  predicate SameShown(x: Issue, y: Issue) {
    x.number == y.number && x.title == y.title && x.body == y.body
  }

  /** The output depends only on each issue's number, title and body. */
  lemma {:induction false} FormatIgnoresLabelsAndUrl(xs: seq<Issue>, ys: seq<Issue>)
    requires |xs| == |ys|
    requires forall i :: 0 <= i < |xs| ==> SameShown(xs[i], ys[i])
    ensures Sections(xs) == Sections(ys)
    ensures Format(xs) == Format(ys)
    decreases |xs|
  {
    if xs != [] {
      var n := |xs| - 1;
      assert SameShown(xs[n], ys[n]);
      assert Section(xs[n]) == Section(ys[n]);
      FormatIgnoresLabelsAndUrl(xs[..n], ys[..n]);
    }
  }

  // ---------------------------------------------------------------------
  // The formatting test

  const TestIssues: seq<Issue> := [
    Issue(42, "Add auth", Some("Need login\n- [ ] form\n- [ ] session"), [], None),
    Issue(38, "Fix bug", None, [], None)
  ]

  /** The records of the parsing test. The source only parses them; the
      lemmas below format them as an example. */
  const MockIssues: seq<Issue> := [
    Issue(1, "Issue 1", Some("Body 1"), [], Some("https://github.com/test/repo/issues/1")),
    Issue(2, "Issue 2", None, [Label("bug")], Some("https://github.com/test/repo/issues/2"))
  ]

  /** `${n}` prints 1 and 2 as "1" and "2". */
  lemma MockSubHeaders()
    ensures SubHeader(MockIssues[0]) == "### #1: Issue 1" + BlankLine
    ensures SubHeader(MockIssues[1]) == "### #2: Issue 2" + BlankLine
  {
    assert Decimal.Render(1) == "1";
    assert Decimal.Render(2) == "2";
  }

  /** The two mock issues come out in order: issue 1's sub-header and body,
      then issue 2's sub-header and the fallback for its `null` body. */
  lemma FormattedMockIssues()
    ensures var r, p, q := Format(MockIssues), SectionStart(MockIssues, 0), SectionStart(MockIssues, 1);
      OccursAt(r, "### #1: Issue 1", p) &&
      OccursAt(r, "Body 1", p + |SubHeader(MockIssues[0])|) &&
      OccursAt(r, "### #2: Issue 2", q) &&
      OccursAt(r, Fallback, q + |SubHeader(MockIssues[1])|) &&
      p + |SubHeader(MockIssues[0])| + |"Body 1"| < q
  {
    MockSubHeaders();
    SubHeaderLineAt(MockIssues, 0, "### #1: Issue 1");
    SubHeaderLineAt(MockIssues, 1, "### #2: Issue 2");
    BodyVerbatim(MockIssues, 0, "Body 1");
    FallbackForFalsyBody(MockIssues, 1);
    SectionsInOrder(MockIssues, 0, 1);
    var m := MockIssues[0];
    assert |Section(m)| == |SubHeader(m)| + |BodyText(m.body)| + |BlankLine|;
  }

  /** `${n}` prints 42 as "42". */
  lemma TestSubHeader()
    ensures SubHeader(TestIssues[0]) == "### #42: Add auth" + BlankLine
  {
    assert Decimal.Render(42) == "42" by {
      assert Decimal.Render(4) == "4";
    }
  }

  /** The three substrings the formatting test looks for are all there, and
      the checklist body of issue 42 is carried over unchanged. */
  lemma FormattedTestIssues()
    ensures Contains(Format(TestIssues), Title)
    ensures Contains(Format(TestIssues), "### #42: Add auth")
    ensures Contains(Format(TestIssues), Fallback)
    ensures Contains(Format(TestIssues), "Need login\n- [ ] form\n- [ ] session")
  {
    var r := Format(TestIssues);
    FormatStartsWithHeader(TestIssues);
    SliceMiddle("\n\n", Title, "\n\n");
    OccursWithin(r, Header, 0, Title, 2);
    TestSubHeader();
    SubHeaderLineAt(TestIssues, 0, "### #42: Add auth");
    FallbackForFalsyBody(TestIssues, 1);
    BodyVerbatim(TestIssues, 0, "Need login\n- [ ] form\n- [ ] session");
  }
}
