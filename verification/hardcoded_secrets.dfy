/**
 * `hardcoded-secrets`: a non-comment line that assigns a quoted literal to a
 * secret-sounding key, or that contains a vendor token.
 */
module HardcodedSecrets {
  import opened Wrappers
  import opened Text
  import opened Document
  import opened Findings
  import opened Parser
  import opened LineScan

  const Name := "hardcoded-secrets"
  const Message := "Possible hardcoded secret detected"
  const Fix := "Use `${{ secrets.SECRET_NAME }}` instead"

  /** The alternatives of `(?:password|secret|token|key|api_key)`, matched ignoring ASCII case. */
  const Keywords: seq<string> := ["password", "secret", "token", "key", "api_key"]

  predicate IsQuote(c: char) { c == '\'' || c == '"' }

  /** The characters `[^${}]` excludes. */
  predicate IsInterpolationChar(c: char) { c == '$' || c == '{' || c == '}' }

  predicate IsAssignChar(c: char) { c == ':' || c == '=' }

  /** `kw` (lower case) occurs at `i` ignoring ASCII case. */
  predicate KeywordAt(line: string, i: nat, kw: string) {
    i + |kw| <= |line| && forall m :: 0 <= m < |kw| ==> ToLowerAscii(line[i + m]) == kw[m]
  }

  /** `['"][^${}]+['"]` starting at `q`. */
  predicate QuotedValueAt(line: string, q: nat) {
    && q < |line| && IsQuote(line[q])
    && exists e | q + 1 < e < |line| ::
         IsQuote(line[e]) && forall m | q + 1 <= m < e :: !IsInterpolationChar(line[m])
  }

  /**
   * The first pattern, with keyword `kw`, matched from `i`. `\s*` is
   * followed by `[:=]` and then by a quote, neither of them a space, so each
   * `\s*` consumes its whole run of spaces.
   */
  predicate AssignmentWith(line: string, i: nat, kw: string) {
    && KeywordAt(line, i, kw)
    && var p := SkipWhile(line, i + |kw|, IsSpace);
    && p < |line| && IsAssignChar(line[p])
    && QuotedValueAt(line, SkipWhile(line, p + 1, IsSpace))
  }

  predicate AssignmentAt(line: string, i: nat) {
    exists w | 0 <= w < |Keywords| :: AssignmentWith(line, i, Keywords[w])
  }

  /**
   * The same pattern read as a backtracking matcher would: any split of the
   * input between the pattern's parts that fits.
   */
  ghost predicate AssignmentMatch(line: string, i: nat, kw: string, p: nat, q: nat) {
    && KeywordAt(line, i, kw)
    && i + |kw| <= p < |line|
    && (forall m :: i + |kw| <= m < p ==> IsSpace(line[m]))
    && IsAssignChar(line[p])
    && p + 1 <= q < |line|
    && (forall m :: p + 1 <= m < q ==> IsSpace(line[m]))
    && QuotedValueAt(line, q)
  }

  /** The greedy reading finds a match exactly when some split does. */
  lemma AssignmentWithIsRegexMatch(line: string, i: nat, kw: string)
    ensures AssignmentWith(line, i, kw) <==> exists p: nat, q: nat :: AssignmentMatch(line, i, kw, p, q)
  {
    if AssignmentWith(line, i, kw) {
      var p := SkipWhile(line, i + |kw|, IsSpace);
      assert AssignmentMatch(line, i, kw, p, SkipWhile(line, p + 1, IsSpace));
    }
    if p: nat, q: nat :| AssignmentMatch(line, i, kw, p, q) {
      MaximalRun(line, i + |kw|, p, IsSpace);
      MaximalRun(line, p + 1, q, IsSpace);
    }
  }

  predicate MatchesAssignment(line: string) {
    exists i | 0 <= i < |line| :: AssignmentAt(line, i)
  }

  /** Body characters of a vendor token. */
  datatype CharClass = Alnum | AlnumOrUnderscore | UpperOrDigit

  predicate InClass(c: char, cls: CharClass) {
    match cls
    case Alnum => IsAlnum(c)
    case AlnumOrUnderscore => IsAlnum(c) || c == '_'
    case UpperOrDigit => IsUpper(c) || IsDigit(c)
  }

  /** A fixed prefix followed by exactly `length` characters of a class (more may follow). */
  datatype TokenShape = TokenShape(prefix: string, length: nat, body: CharClass)

  /** `ghp_…{36}`, `gho_…{36}`, `github_pat_…{82}`, `sk-…{48}`, `AKIA…{16}` */
  const TokenShapes: seq<TokenShape> := [
    TokenShape("ghp_", 36, Alnum),
    TokenShape("gho_", 36, Alnum),
    TokenShape("github_pat_", 82, AlnumOrUnderscore),
    TokenShape("sk-", 48, Alnum),
    TokenShape("AKIA", 16, UpperOrDigit)
  ]

  predicate TokenAt(line: string, t: TokenShape, i: nat) {
    && OccursAt(line, t.prefix, i)
    && i + |t.prefix| + t.length <= |line|
    && forall m | i + |t.prefix| <= m < i + |t.prefix| + t.length :: InClass(line[m], t.body)
  }

  predicate MatchesToken(line: string) {
    exists w, i | 0 <= w < |TokenShapes| && 0 <= i < |line| :: TokenAt(line, TokenShapes[w], i)
  }

  /** Some pattern of `SECRET_PATTERNS` matches. */
  predicate MatchesSecret(line: string) {
    MatchesAssignment(line) || MatchesToken(line)
  }

  const SecretReport := Report(Error, Name, Message, Some(Fix))

  /**
   * The verdict on one line: comments are skipped, and the loop stops at the
   * first matching pattern, so a line gets at most one report.
   */
  function Judge(line: string): (r: Option<Report>)
    ensures r.Some? <==> !IsComment(line) && MatchesSecret(line)
    ensures r.Some? ==> r.value == SecretReport
  {
    if IsComment(line) then None
    else if MatchesSecret(line) then Some(SecretReport)
    else None
  }

  /** `hardcodedSecrets.check` */
  function Check(file: string, content: string, doc: Value): (r: seq<Finding>)
    ensures Attributed(r, file, Name) && Located(r, content)
    ensures IncreasingLines(r)
    ensures forall k :: 0 <= k < |r| ==>
      && r[k].severity == Error
      && !IsComment(Lines(content)[r[k].line - 1])
      && MatchesSecret(Lines(content)[r[k].line - 1])
    ensures forall i :: (0 <= i < |Lines(content)| && !IsComment(Lines(content)[i])
                         && MatchesSecret(Lines(content)[i])) ==> HasLine(r, i + 1)
  {
    var lines := Lines(content);
    ScanComplete(file, lines, 0, Judge);
    ScanIncreasing(file, lines, 0, Judge);
    Scan(file, lines, 0, Judge)
  }

  /**
   * A value that is an interpolation, such as `"${{ secrets.X }}"`, is not a
   * literal: when every quote is last on the line or followed by `$`, `{` or
   * `}`, the assignment pattern cannot match.
   */
  lemma InterpolationIsNotALiteral(line: string)
    requires forall q :: 0 <= q < |line| - 1 && IsQuote(line[q]) ==> IsInterpolationChar(line[q + 1])
    ensures !MatchesAssignment(line)
  {
    forall q: nat | q < |line| ensures !QuotedValueAt(line, q) {
      if IsQuote(line[q]) && q + 1 < |line| {
        assert IsInterpolationChar(line[q + 1]);
      }
    }
  }

  /** `password: "hunter2"` is reported. */
  lemma LiteralPasswordFlagged()
    ensures MatchesSecret("password: \"hunter2\"")
  {
    var line := "password: \"hunter2\"";
    assert KeywordAt(line, 0, Keywords[0]);
    assert SkipWhile(line, 8, IsSpace) == 8;
    assert SkipWhile(line, 9, IsSpace) == 10;
    assert IsQuote(line[18]) && forall m | 11 <= m < 18 :: !IsInterpolationChar(line[m]);
    assert QuotedValueAt(line, 10);
    assert AssignmentWith(line, 0, Keywords[0]);
    assert AssignmentAt(line, 0);
    assert MatchesAssignment(line);
  }
}
