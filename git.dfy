/**
 * The `git branch -vv` line parser and the repository-root helper of src/git.ts.
 *
 * parseGitBranch matches one line against the anchored regular expression
 *
 *   ^([*]?)\s+(\S+)\s+(\S+)\s+(\[([^\s^/]+)/([^\s^/]+)(: behind ([0-9]+))?(: ahead ([0-9]+))?\])?.*
 *
 * and projects its groups into a GitBranch record. Here the match is a
 * deterministic scanner over the characters of the line; the comments at
 * each step say why a backtracking matcher cannot settle on another split.
 */
module Git {
  import opened Options

  // ---------------------------------------------------------------- records

  /** The tracked upstream branch; `remoteURL` is filled in later by the caller of the parser. */
  datatype Upstream = Upstream(remote: string, branch: string, remoteURL: Option<string>)

  /** Commits ahead of, or behind, the upstream. */
  datatype AheadBehind = AheadBehind(ahead: Option<nat>, behind: Option<nat>)

  datatype GitBranch = GitBranch(
    isHEAD: bool,
    localBranch: string,
    upstreamBranch: Option<Upstream>,
    aheadBehind: Option<AheadBehind>,
    ref: string)

  // ------------------------------------------------------- character classes

  /** ECMAScript `\s`: the white space and line terminator characters. */
  predicate IsSpace(c: char) {
    c == ' ' || c == '\t' || c == '\n' || c == '\r' || c == '\U{000B}' || c == '\U{000C}'
    || c == '\U{00A0}' || c == '\U{1680}' || ('\U{2000}' <= c <= '\U{200A}')
    || c == '\U{2028}' || c == '\U{2029}' || c == '\U{202F}' || c == '\U{205F}'
    || c == '\U{3000}' || c == '\U{FEFF}'
  }

  predicate IsDigit(c: char) {
    '0' <= c <= '9'
  }

  /** `[^\s^/]`: a character of a remote name or of an upstream branch name. */
  predicate IsNameChar(c: char) {
    !IsSpace(c) && c != '^' && c != '/'
  }

  datatype CharClass = Space | NonSpace | NameChar | Digit

  predicate In(c: char, k: CharClass) {
    match k
    case Space => IsSpace(c)
    case NonSpace => !IsSpace(c)
    case NameChar => IsNameChar(c)
    case Digit => IsDigit(c)
  }

  predicate AllIn(s: string, k: CharClass) {
    forall i :: 0 <= i < |s| ==> In(s[i], k)
  }

  /** A non-empty run of class k: what `[k]+` can match. */
  predicate IsRun(s: string, k: CharClass) {
    |s| > 0 && AllIn(s, k)
  }

  /** Length of the greedy run `[k]*` at the start of s: the longest prefix of class k. */
  function Span(s: string, k: CharClass): (n: nat)
    ensures n <= |s|
    ensures forall i :: 0 <= i < n ==> In(s[i], k)
    ensures n == |s| || !In(s[n], k)
  {
    if s == [] || !In(s[0], k) then 0 else 1 + Span(s[1..], k)
  }

  // ------------------------------------------------- groups 1 to 3 of the match

  /**
   * The star, the local branch, the ref, and the text after the whitespace that
   * follows the ref, with the three whitespace runs the pattern skips.
   */
  datatype Prefix = Prefix(isHEAD: bool, space1: string, localBranch: string, space2: string, ref: string,
                           space3: string, rest: string)

  /** The star a line starts with, as a string. */
  function StarOf(isHEAD: bool): string {
    if isHEAD then "*" else ""
  }

  /**
   * The line splits as `^([*]?)\s+(\S+)\s+(\S+)\s+` demands: an optional star, whitespace,
   * a token, whitespace, a token, whitespace, and anything after.
   */
  predicate SplitsAs(line: string, star: string, w1: string, t1: string, w2: string, t2: string,
                     w3: string, rest: string)
  {
    (star == "" || star == "*")
    && IsRun(w1, Space) && IsRun(t1, NonSpace) && IsRun(w2, Space) && IsRun(t2, NonSpace) && IsRun(w3, Space)
    && line == star + (w1 + (t1 + (w2 + (t2 + (w3 + rest)))))
  }

  /** `[k]+` at the start of s, taken greedily: the run and the text after it. */
  function MatchRun(s: string, k: CharClass): (m: Option<(string, string)>)
    ensures m.Some? ==> IsRun(m.value.0, k) && s == m.value.0 + m.value.1
    ensures m.Some? ==> m.value.1 == [] || !In(m.value.1[0], k)
    ensures m.None? <==> s == [] || !In(s[0], k)
  {
    var n := Span(s, k);
    assert s == s[..n] + s[n..];
    if n == 0 then None else Some((s[..n], s[n..]))
  }

  function MatchPrefix(line: string): (m: Option<Prefix>)
    ensures m.Some? ==> m.value.isHEAD == (line != [] && line[0] == '*')
    ensures m.Some? ==> SplitsAs(line, StarOf(m.value.isHEAD), m.value.space1, m.value.localBranch,
                                 m.value.space2, m.value.ref, m.value.space3, m.value.rest)
    ensures m.Some? ==> m.value.rest == [] || !IsSpace(m.value.rest[0])
  {
    // `[*]?` is greedy, and giving the star back would leave `\s+` facing a '*':
    // the star is taken exactly when the line starts with one.
    var isHEAD := line != [] && line[0] == '*';
    var afterStar := if isHEAD then line[1..] else line;
    assert line == StarOf(isHEAD) + afterStar;
    // Each `\s+` and `\S+` takes a maximal run: a shorter run would leave a
    // character of its own class in front of a part that needs the other class.
    // After the third `\s+` the optional group, or else `.*`, always succeeds,
    // so the matcher never gives back any of that last whitespace run either.
    match MatchRun(afterStar, Space)
    case None => None
    case Some((space1, s2)) =>
      match MatchRun(s2, NonSpace)
      case None => None
      case Some((localBranch, s3)) =>
        match MatchRun(s3, Space)
        case None => None
        case Some((space2, s4)) =>
          match MatchRun(s4, NonSpace)
          case None => None
          case Some((ref, s5)) =>
            match MatchRun(s5, Space)
            case None => None
            case Some((space3, rest)) =>
              assert afterStar == space1 + (localBranch + (space2 + (ref + (space3 + rest))));
              Some(Prefix(isHEAD, space1, localBranch, space2, ref, space3, rest))
  }

  // ----------------------------------------------- the bracketed upstream group

  /** A digit group is absent or a non-empty run of decimal digits. */
  predicate IsCount(d: Option<string>) {
    d.None? || IsRun(d.value, Digit)
  }

  /** The text that `(: behind ([0-9]+))?(: ahead ([0-9]+))?\]` matches for the given groups. */
  function TailText(behind: Option<string>, ahead: Option<string>): string {
    CountText(": behind ", behind) + (CountText(": ahead ", ahead) + "]")
  }

  /** The text an optional group `(marker([0-9]+))?` matches for the given digits. */
  function CountText(marker: string, d: Option<string>): string {
    if d.Some? then marker + d.value else ""
  }

  /** `(marker([0-9]+))?` at the start of t, taken whenever it matches: the digits and the text after. */
  function OptionalCount(t: string, marker: string): (m: (Option<string>, string))
    ensures IsCount(m.0) && t == CountText(marker, m.0) + m.1
    ensures m.0.Some? ==> m.1 == [] || !IsDigit(m.1[0])
  {
    if marker <= t then
      match MatchRun(t[|marker|..], Digit)
      case None => (None, t)
      case Some((d, rest)) =>
        assert t == marker + t[|marker|..];
        (Some(d), rest)
    else (None, t)
  }

  /** Two pieces and a ']' that start the text t: they are a prefix of it. */
  lemma ClosedBy(c1: string, c2: string, rest: string)
    requires rest != [] && rest[0] == ']'
    ensures c1 + (c2 + "]") <= c1 + (c2 + rest)
  {
    assert rest == "]" + rest[1..];
    assert c1 + (c2 + rest) == (c1 + (c2 + "]")) + rest[1..];
  }

  /** What starts u after its first n characters, behind those characters, starts u. */
  lemma PrefixAt(u: string, n: nat, p: string)
    requires n <= |u| && p <= u[n..]
    ensures u[..n] + p <= u
  {
    var x := u[n..][|p|..];
    assert u[n..] == p + x;
    assert u == u[..n] + (p + x);
    assert u == (u[..n] + p) + x;
  }

  /** What starts the text after `[remote/`, behind `[remote/`, starts t. */
  lemma BracketAt(t: string, remote: string, v: string, p: string)
    requires t != [] && t[0] == '[' && t[1..] == remote + v
    requires v != [] && v[0] == '/' && p <= v[1..]
    ensures "[" + (remote + ("/" + p)) <= t
  {
    var x := v[1..][|p|..];
    assert v[1..] == p + x;
    assert v == "/" + (p + x);
    assert t == "[" + (remote + ("/" + (p + x)));
    assert t == ("[" + (remote + ("/" + p))) + x;
  }

  /** `(: behind ([0-9]+))?(: ahead ([0-9]+))?\]` at the start of t: the two digit groups. */
  function MatchTail(t: string): (m: Option<(Option<string>, Option<string>)>)
    ensures m.Some? ==> IsCount(m.value.0) && IsCount(m.value.1)
    ensures m.Some? ==> t != [] && (t[0] == ':' || t[0] == ']')
  {
    // An optional group is taken whenever it matches: skipping it would leave
    // `: ahead ` or `]` facing the ": b" (or ": a") the group starts with. The
    // digit runs are maximal, since a shorter run leaves a digit in front of
    // ':' or ']'. So at a given position the tail matches in at most one way.
    var b := OptionalCount(t, ": behind ");
    var a := OptionalCount(b.1, ": ahead ");
    if a.1 != [] && a.1[0] == ']' then
      assert b.0.Some? ==> t[0] == (": behind " + b.0.value + b.1)[0];
      assert a.0.Some? ==> b.1[0] == (": ahead " + a.0.value + a.1)[0];
      Some((b.0, a.0))
    else None
  }

  /** The counts the tail returns are the text at the start of t, up to the closing ']'. */
  lemma MatchTailSound(t: string)
    ensures var m := MatchTail(t);
      m.Some? ==> TailText(m.value.0, m.value.1) <= t
  {
    var b := OptionalCount(t, ": behind ");
    var a := OptionalCount(b.1, ": ahead ");
    if a.1 != [] && a.1[0] == ']' {
      ClosedBy(CountText(": behind ", b.0), CountText(": ahead ", a.0), a.1);
    }
  }

  /** The tail matches after the first j characters of u. */
  predicate TailMatchesAt(u: string, j: nat) {
    j <= |u| && MatchTail(u[j..]).Some?
  }

  /**
   * The largest n in 1..max for which ok(n) holds, searching down from max.
   * For the upstream branch, ok(n) says that the rest of the group matches after
   * n characters: the greedy `[^\s^/]+` gives back one character at a time.
   */
  function LastWhere(ok: nat -> bool, max: nat): (n: Option<nat>)
    ensures n.Some? ==> 0 < n.value <= max && ok(n.value)
    ensures n.Some? ==> forall j :: n.value < j <= max ==> !ok(j)
    ensures n.None? ==> forall j :: 0 < j <= max ==> !ok(j)
    decreases max
  {
    if max == 0 then None
    else if ok(max) then Some(max)
    else LastWhere(ok, max - 1)
  }

  /** Groups 5, 6, 8 and 10: remote, branch, behind digits, ahead digits. */
  datatype Bracket = Bracket(remote: string, branch: string, behind: Option<string>, ahead: Option<string>)

  /**
   * What follows `remote/` in group 4: the branch (group 6) and the two counts. The
   * branch is the longest run of name characters after which the tail still matches.
   */
  function MatchBranchAndTail(u: string): (m: Option<(string, Option<string>, Option<string>)>)
    ensures m.Some? ==> IsRun(m.value.0, NameChar) && IsCount(m.value.1) && IsCount(m.value.2)
  {
    match LastWhere((j: nat) => TailMatchesAt(u, j), Span(u, NameChar))
    case None => None
    case Some(n) =>
      var tail := MatchTail(u[n..]).value;
      Some((u[..n], tail.0, tail.1))
  }

  /** The branch and the tail the search returns are the text at the start of u. */
  lemma MatchBranchAndTailSound(u: string)
    ensures var m := MatchBranchAndTail(u);
      m.Some? ==> m.value.0 + TailText(m.value.1, m.value.2) <= u
  {
    var ok := (j: nat) => TailMatchesAt(u, j);
    var n := LastWhere(ok, Span(u, NameChar));
    if n.Some? {
      var tail := MatchTail(u[n.value..]).value;
      MatchTailSound(u[n.value..]);
      PrefixAt(u, n.value, TailText(tail.0, tail.1));
    }
  }

  /** The text group 4 matches for the given groups. */
  function BracketText(b: Bracket): string {
    "[" + (b.remote + ("/" + (b.branch + TailText(b.behind, b.ahead))))
  }

  /** Group 4, `\[remote/branch(: behind N)?(: ahead N)?\]`, at the start of t. */
  function MatchBracket(t: string): (m: Option<Bracket>)
    ensures m.Some? ==> IsRun(m.value.remote, NameChar) && IsRun(m.value.branch, NameChar)
    ensures m.Some? ==> IsCount(m.value.behind) && IsCount(m.value.ahead)
    ensures m.Some? ==> BracketText(m.value) <= t
  {
    if t == [] || t[0] != '[' then None
    else
      // The remote is the maximal run: a shorter one would leave a name character, not '/', next.
      match MatchRun(t[1..], NameChar)
      case None => None
      case Some((remote, v)) =>
        if v == [] || v[0] != '/' then None
        else
          match MatchBranchAndTail(v[1..])
          case None => None
          case Some((branch, behind, ahead)) =>
            MatchBranchAndTailSound(v[1..]);
            BracketAt(t, remote, v, branch + TailText(behind, ahead));
            Some(Bracket(remote, branch, behind, ahead))
  }

  // ------------------------------------------------------------- projection

  function DigitValue(c: char): nat {
    if IsDigit(c) then c as int - '0' as int else 0
  }

  function Pow10(n: nat): (p: nat)
    ensures p >= 1
  {
    if n == 0 then 1 else 10 * Pow10(n - 1)
  }

  /**
   * `parseInt(d, 10)` of a run of decimal digits, without the float rounding of large
   * values: n digits read in base 10 give less than 10^n.
   */
  function DecimalValue(d: string): (v: nat)
    ensures v < Pow10(|d|)
  {
    if d == [] then 0 else 10 * DecimalValue(d[..|d| - 1]) + DigitValue(d[|d| - 1])
  }

  /** `aheadBehind` of a matched bracket: first set from the behind group, then overwritten from the ahead group. */
  function CountsOf(behind: Option<string>, ahead: Option<string>): Option<AheadBehind> {
    if ahead.Some? then Some(AheadBehind(Some(DecimalValue(ahead.value)), None))
    else if behind.Some? then Some(AheadBehind(None, Some(DecimalValue(behind.value))))
    else None
  }

  /** parseGitBranch: the record for a line of `git branch -vv`, or None when the line does not match. */
  function ParseGitBranch(line: string): (r: Option<GitBranch>)
    ensures r.Some? ==> r.value.isHEAD == (line != [] && line[0] == '*')
    ensures r.Some? ==> IsRun(r.value.localBranch, NonSpace) && IsRun(r.value.ref, NonSpace)
    ensures r.Some? && r.value.aheadBehind.Some? ==> r.value.upstreamBranch.Some?
    ensures r.Some? && r.value.aheadBehind.Some? ==>
      (r.value.aheadBehind.value.ahead.Some? <==> r.value.aheadBehind.value.behind.None?)
    ensures r.Some? && r.value.upstreamBranch.Some? ==>
      IsRun(r.value.upstreamBranch.value.remote, NameChar)
      && IsRun(r.value.upstreamBranch.value.branch, NameChar)
      && r.value.upstreamBranch.value.remoteURL.None?
  {
    match MatchPrefix(line)
    case None => None
    case Some(p) =>
      var b := MatchBracket(p.rest);
      var upstreamBranch := if b.Some? then Some(Upstream(b.value.remote, b.value.branch, None)) else None;
      var aheadBehind := if b.Some? then CountsOf(b.value.behind, b.value.ahead) else None;
      Some(GitBranch(p.isHEAD, p.localBranch, upstreamBranch, aheadBehind, p.ref))
  }

  // ------------------------------------------------------- repository root

  predicate EndsWith(s: string, suffix: string) {
    |suffix| <= |s| && s[|s| - |suffix|..] == suffix
  }

  /** The two watched files of a repository, relative to its folder. */
  const ConfigFile := ".git/config"
  const HeadFile := ".git/HEAD"

  /** getGitRootFolder: the repository folder of a watched `.git/config` or `.git/HEAD` path. */
  function GetGitRootFolder(uri: string): (root: string)
    ensures root <= uri
    ensures EndsWith(uri, "/" + ConfigFile) ==> root + ConfigFile == uri
    ensures !EndsWith(uri, "/" + ConfigFile) && EndsWith(uri, "/" + HeadFile) ==> root + HeadFile == uri
    ensures !EndsWith(uri, "/" + ConfigFile) && !EndsWith(uri, "/" + HeadFile) ==> root == uri
    ensures root != uri ==> root != [] && root[|root| - 1] == '/'
  {
    if EndsWith(uri, "/" + ConfigFile) then
      StripSuffix(uri, ConfigFile);
      uri[..|uri| - |ConfigFile|]
    else if EndsWith(uri, "/" + HeadFile) then
      StripSuffix(uri, HeadFile);
      uri[..|uri| - |HeadFile|]
    else uri
  }

  /** Removing `suffix` from a string that ends with '/' + suffix leaves a prefix that ends with '/'. */
  lemma StripSuffix(uri: string, suffix: string)
    requires EndsWith(uri, "/" + suffix)
    ensures uri[..|uri| - |suffix|] + suffix == uri
    ensures uri[..|uri| - |suffix|] != [] && uri[|uri| - |suffix| - 1] == '/'
  {
    var root := uri[..|uri| - |suffix|];
    assert uri[|uri| - |suffix| - 1..] == "/" + suffix;
    assert uri[|uri| - |suffix|..] == uri[|uri| - |suffix| - 1..][1..];
    assert uri == root + uri[|uri| - |suffix|..];
  }
}
