/**
 * Properties of the `git branch -vv` parser and of the repository-root helper:
 * when a line parses and into what, the upstream bracket with and without its
 * counts, the upstream branch that contains a '/', and the unit-test fixtures.
 */
module GitProperties {
  import opened Options
  import opened Git

  // ------------------------------------------------------------ scanning

  /** A run of class k followed by a character outside k (or by nothing) is exactly what Span measures. */
  lemma SpanOfRun(a: string, b: string, k: CharClass)
    requires AllIn(a, k)
    requires b == [] || !In(b[0], k)
    ensures Span(a + b, k) == |a|
  {
    assert forall i | 0 <= i < |a| :: (a + b)[i] == a[i];
    assert b != [] ==> (a + b)[|a|] == b[0];
  }

  /** The same, when the run is a followed by one more character c of class k. */
  lemma SpanOfRunThen(a: string, c: char, b: string, k: CharClass)
    requires AllIn(a, k) && In(c, k)
    requires b == [] || !In(b[0], k)
    ensures Span(a + ([c] + b), k) == |a| + 1
  {
    var s := a + ([c] + b);
    assert forall i | 0 <= i < |a| :: s[i] == a[i];
    assert s[|a|] == c;
    assert b != [] ==> s[|a| + 1] == b[0];
  }

  /** The greedy run of class k at the start of a + b is a, when a is a run of k and b does not continue it. */
  lemma MatchRunOf(a: string, b: string, k: CharClass)
    requires IsRun(a, k)
    requires b == [] || !In(b[0], k)
    ensures MatchRun(a + b, k) == Some((a, b))
  {
    SpanOfRun(a, b, k);
    assert (a + b)[..|a|] == a && (a + b)[|a|..] == b;
  }

  // -------------------------------------------- groups 1 to 3: when a line parses

  /** With the whitespace after the ref taken whole, the scanner recovers every piece of a split. */
  lemma MatchPrefixComplete(line: string, star: string, w1: string, t1: string, w2: string, t2: string,
                            w3: string, rest: string)
    requires SplitsAs(line, star, w1, t1, w2, t2, w3, rest)
    requires rest == [] || !IsSpace(rest[0])
    ensures MatchPrefix(line) == Some(Prefix(star == "*", w1, t1, w2, t2, w3, rest))
  {
    var s5 := w3 + rest;
    var s4 := t2 + s5;
    var s3 := w2 + s4;
    var s2 := t1 + s3;
    var s1 := w1 + s2;
    assert line == star + s1;
    assert line[0] == '*' <==> star == "*" by {
      if star == "" { assert line[0] == w1[0]; }
    }
    assert (if star == "*" then line[1..] else line) == s1;
    MatchRunOf(w1, s2, Space);
    MatchRunOf(t1, s3, NonSpace);
    MatchRunOf(w2, s4, Space);
    MatchRunOf(t2, s5, NonSpace);
    MatchRunOf(w3, rest, Space);
  }

  /** Two runs of the same class make one. */
  lemma AllInConcat(a: string, b: string, k: CharClass)
    requires AllIn(a, k) && AllIn(b, k)
    ensures AllIn(a + b, k)
  {
    assert forall i | |a| <= i < |a + b| :: (a + b)[i] == b[i - |a|];
  }

  lemma ConcatAssoc(x: string, y: string, z: string)
    ensures (x + y) + z == x + (y + z)
  {
  }

  /** A whitespace run grows over the whitespace at the start of what follows it, leaving a non-space. */
  lemma AbsorbSpaces(w: string, rest: string)
    requires IsRun(w, Space)
    ensures var k := Span(rest, Space);
      IsRun(w + rest[..k], Space) && w + rest == (w + rest[..k]) + rest[k..]
      && (rest[k..] == [] || !IsSpace(rest[k..][0]))
  {
    var k := Span(rest, Space);
    var a := rest[..k];
    var b := rest[k..];
    assert rest == a + b;
    assert AllIn(a, Space);
    AllInConcat(w, a, Space);
    ConcatAssoc(w, a, b);
    assert b != [] ==> b[0] == rest[k];
  }

  /** Every line that splits as the pattern demands parses, into its star, its first token and its second token. */
  lemma ParseComplete(line: string, star: string, w1: string, t1: string, w2: string, t2: string,
                      w3: string, rest: string)
    requires SplitsAs(line, star, w1, t1, w2, t2, w3, rest)
    ensures ParseGitBranch(line).Some?
    ensures ParseGitBranch(line).value.isHEAD == (star == "*")
    ensures ParseGitBranch(line).value.localBranch == t1
    ensures ParseGitBranch(line).value.ref == t2
  {
    var k := Span(rest, Space);
    AbsorbSpaces(w3, rest);
    MatchPrefixComplete(line, star, w1, t1, w2, t2, w3 + rest[..k], rest[k..]);
  }

  /** Every line that parses splits as the pattern demands, around the parsed star, local branch and ref. */
  lemma ParseSound(line: string, g: GitBranch)
    requires ParseGitBranch(line) == Some(g)
    ensures exists w1, w2, w3, rest :: SplitsAs(line, StarOf(g.isHEAD), w1, g.localBranch, w2, g.ref, w3, rest)
  {
    var p := MatchPrefix(line).value;
    assert SplitsAs(line, StarOf(g.isHEAD), p.space1, g.localBranch, p.space2, g.ref, p.space3, p.rest);
  }

  /** parseGitBranch returns undefined exactly when the line does not match the pattern. */
  lemma ParseDefinedIff(line: string)
    ensures ParseGitBranch(line).Some? <==>
      exists star, w1, t1, w2, t2, w3, rest :: SplitsAs(line, star, w1, t1, w2, t2, w3, rest)
  {
    if ParseGitBranch(line).Some? {
      ParseSound(line, ParseGitBranch(line).value);
    }
    if exists star, w1, t1, w2, t2, w3, rest :: SplitsAs(line, star, w1, t1, w2, t2, w3, rest) {
      var star, w1, t1, w2, t2, w3, rest :| SplitsAs(line, star, w1, t1, w2, t2, w3, rest);
      ParseComplete(line, star, w1, t1, w2, t2, w3, rest);
    }
  }

  // ----------------------------------------------------- the upstream bracket

  /** An optional count group takes its marker and digits when they are there, and nothing when the marker is absent. */
  lemma OptionalCountOf(marker: string, d: Option<string>, y: string)
    requires IsCount(d)
    requires d.Some? ==> y == [] || !IsDigit(y[0])
    requires d.None? ==> !(marker <= y)
    ensures OptionalCount(CountText(marker, d) + y, marker) == (d, y)
  {
    if d.Some? {
      var t := CountText(marker, d) + y;
      assert t == marker + (d.value + y);
      assert t[..|marker|] == marker;
      assert t[|marker|..] == d.value + y;
      MatchRunOf(d.value, y, Digit);
    } else {
      assert CountText(marker, d) + y == y;
    }
  }

  /** The tail matches its own text whatever follows it, and yields back the two digit groups. */
  lemma MatchTailComplete(behind: Option<string>, ahead: Option<string>, x: string)
    requires IsCount(behind) && IsCount(ahead)
    ensures MatchTail(TailText(behind, ahead) + x) == Some((behind, ahead))
  {
    var t2 := "]" + x;
    var t1 := CountText(": ahead ", ahead) + t2;
    assert TailText(behind, ahead) + x == CountText(": behind ", behind) + t1;
    assert !(": behind " <= t1) by {
      if ahead.Some? { assert t1[2] == 'a'; } else { assert t1[0] == ']'; }
    }
    OptionalCountOf(": behind ", behind, t1);
    assert !(": ahead " <= t2) by { assert t2[0] == ']'; }
    OptionalCountOf(": ahead ", ahead, t2);
  }

  /** The search down from max stops at the first k that passes. */
  lemma LastWhereStops(ok: nat -> bool, k: nat)
    requires 0 < k && ok(k) && !ok(k + 1)
    ensures LastWhere(ok, k + 1) == Some(k)
  {
  }

  /** The tail starts with ": " when it carries a count, and is "]" alone otherwise. */
  lemma TailShape(behind: Option<string>, ahead: Option<string>)
    ensures var tt := TailText(behind, ahead);
      if behind.Some? || ahead.Some? then |tt| >= 2 && tt[0] == ':' && tt[1] == ' ' else tt == "]"
  {
    var tt := TailText(behind, ahead);
    var b := CountText(": behind ", behind);
    var a := CountText(": ahead ", ahead);
    if behind.Some? {
      assert b[0] == ':' && b[1] == ' ';
      assert tt[0] == b[0] && tt[1] == b[1];
    } else if ahead.Some? {
      assert a[0] == ':' && a[1] == ' ';
      assert tt == a + "]";
    }
  }

  /** A text opening with ": " or consisting of "]" alone, seen as its first character and the rest. */
  lemma OpeningOf(tt: string, x: string)
    requires (|tt| >= 2 && tt[0] == ':' && tt[1] == ' ') || tt == "]"
    requires x == [] || !IsNameChar(x[0])
    ensures tt != [] && IsNameChar(tt[0])
    ensures tt + x == [tt[0]] + (tt[1..] + x)
    ensures var after := tt[1..] + x;
      after == [] || (!IsNameChar(after[0]) && after[0] != ':' && after[0] != ']')
  {
    assert IsNameChar(':') && IsNameChar(']') && !IsNameChar(' ');
    if |tt| >= 2 {
      assert (tt[1..] + x)[0] == tt[1];
    } else {
      assert tt[1..] + x == x;
    }
  }

  /**
   * The tail opens with ':' or ']', a name character, and what comes after that first
   * character can neither continue a name nor start another tail.
   */
  lemma TailOpening(behind: Option<string>, ahead: Option<string>, x: string)
    requires x == [] || !IsNameChar(x[0])
    ensures TailText(behind, ahead) != [] && IsNameChar(TailText(behind, ahead)[0])
    ensures TailText(behind, ahead) + x == [TailText(behind, ahead)[0]] + (TailText(behind, ahead)[1..] + x)
    ensures var after := TailText(behind, ahead)[1..] + x;
      after == [] || (!IsNameChar(after[0]) && after[0] != ':' && after[0] != ']')
  {
    TailShape(behind, ahead);
    OpeningOf(TailText(behind, ahead), x);
  }

  /** Slicing b + ([c] + after) at the end of b and one character further. */
  lemma SlicesAt(b: string, c: char, after: string)
    ensures var u := b + ([c] + after);
      u[..|b|] == b && u[|b|..] == [c] + after && u[|b| + 1..] == after
  {
  }

  /**
   * Where a branch of name characters meets a tail: the name run takes the branch and
   * the tail's first character, the tail matches right after the branch, and one
   * character further it does not.
   */
  lemma BranchMeetsTail(b: string, behind: Option<string>, ahead: Option<string>, x: string)
    requires IsRun(b, NameChar)
    requires IsCount(behind) && IsCount(ahead)
    requires x == [] || !IsNameChar(x[0])
    ensures var u := b + (TailText(behind, ahead) + x);
      Span(u, NameChar) == |b| + 1 && u[..|b|] == b
      && MatchTail(u[|b|..]) == Some((behind, ahead)) && !TailMatchesAt(u, |b| + 1)
  {
    var tt := TailText(behind, ahead);
    var after := tt[1..] + x;
    TailOpening(behind, ahead, x);
    SpanOfRunThen(b, tt[0], after, NameChar);
    SlicesAt(b, tt[0], after);
    MatchTailComplete(behind, ahead, x);
  }

  /**
   * After `remote/`, a branch of name characters followed by a tail yields that branch and its
   * counts, provided the tail is not followed by a name character.
   */
  lemma MatchBranchAndTailComplete(b: string, behind: Option<string>, ahead: Option<string>, x: string)
    requires IsRun(b, NameChar)
    requires IsCount(behind) && IsCount(ahead)
    requires x == [] || !IsNameChar(x[0])
    ensures MatchBranchAndTail(b + (TailText(behind, ahead) + x)) == Some((b, behind, ahead))
  {
    var u := b + (TailText(behind, ahead) + x);
    BranchMeetsTail(b, behind, ahead, x);
    LastWhereStops((j: nat) => TailMatchesAt(u, j), |b|);
  }

  /** After `[` and a remote run, the '/' ends the remote and the rest is searched for branch and tail. */
  lemma BracketOf(r: string, u: string)
    requires IsRun(r, NameChar)
    ensures var m := MatchBranchAndTail(u);
      MatchBracket("[" + (r + ("/" + u)))
        == if m.Some? then Some(Bracket(r, m.value.0, m.value.1, m.value.2)) else None
  {
    assert ("[" + (r + ("/" + u)))[1..] == r + ("/" + u);
    MatchRunOf(r, "/" + u, NameChar);
    assert ("/" + u)[1..] == u;
  }

  /** A well-formed bracket `[remote/branch(: behind N)?(: ahead M)?]` yields its remote, its branch and its counts. */
  lemma MatchBracketComplete(r: string, b: string, behind: Option<string>, ahead: Option<string>, x: string)
    requires IsRun(r, NameChar) && IsRun(b, NameChar)
    requires IsCount(behind) && IsCount(ahead)
    requires x == [] || !IsNameChar(x[0])
    ensures MatchBracket("[" + (r + ("/" + (b + (TailText(behind, ahead) + x))))) == Some(Bracket(r, b, behind, ahead))
  {
    BracketOf(r, b + (TailText(behind, ahead) + x));
    MatchBranchAndTailComplete(b, behind, ahead, x);
  }

  /** A run of class k at the start of a text is within the greedy run there. */
  lemma {:induction false} SpanAtLeast(a: string, b: string, k: CharClass)
    requires AllIn(a, k)
    ensures Span(a + b, k) >= |a|
  {
    if a != [] {
      assert (a + b)[0] == a[0];
      assert (a + b)[1..] == a[1..] + b;
      assert AllIn(a[1..], k) by {
        forall i | 0 <= i < |a[1..]| ensures In(a[1..][i], k) { assert a[1..][i] == a[i + 1]; }
      }
      SpanAtLeast(a[1..], b, k);
    }
  }

  /**
   * Whatever follows the tail, a branch followed by a tail is found: the scanner returns
   * that branch or, as the greedy regex does, a longer one after which a tail also matches.
   */
  lemma MatchBranchAndTailLongest(b: string, behind: Option<string>, ahead: Option<string>, x: string)
    requires IsRun(b, NameChar)
    requires IsCount(behind) && IsCount(ahead)
    ensures var m := MatchBranchAndTail(b + (TailText(behind, ahead) + x));
      m.Some? && |m.value.0| >= |b|
  {
    var u := b + (TailText(behind, ahead) + x);
    SpanAtLeast(b, TailText(behind, ahead) + x, NameChar);
    assert u[|b|..] == TailText(behind, ahead) + x;
    MatchTailComplete(behind, ahead, x);
    var ok := (j: nat) => TailMatchesAt(u, j);
    assert ok(|b|);
    var n := LastWhere(ok, Span(u, NameChar));
    assert n.Some? && n.value >= |b|;
  }

  /**
   * Whatever follows it, a well-formed bracket is found, with its remote, and with its branch
   * or a longer one that the greedy regex prefers.
   */
  lemma MatchBracketLongest(r: string, b: string, behind: Option<string>, ahead: Option<string>, x: string)
    requires IsRun(r, NameChar) && IsRun(b, NameChar)
    requires IsCount(behind) && IsCount(ahead)
    ensures var m := MatchBracket("[" + (r + ("/" + (b + (TailText(behind, ahead) + x)))));
      m.Some? && m.value.remote == r && |m.value.branch| >= |b|
  {
    BracketOf(r, b + (TailText(behind, ahead) + x));
    MatchBranchAndTailLongest(b, behind, ahead, x);
  }

  /** Neither count group nor the closing ']' can start a text whose second character is not a space. */
  lemma NoTailAt(s: string)
    requires |s| >= 2 && s[0] != ']' && s[1] != ' '
    ensures MatchTail(s).None?
  {
    assert !(": behind " <= s) && !(": ahead " <= s) by {
      assert ": behind "[1] == ' ' && ": ahead "[1] == ' ';
    }
  }

  /**
   * A branch run that ends in '/' leaves no place where the tail can match, unless the run
   * has a ']' in it: a ':' inside the run is followed by a name character or by the '/',
   * never by the space a count group needs.
   */
  lemma MatchBranchAndTailSlash(b: string, x: string)
    requires AllIn(b, NameChar)
    requires forall i :: 0 <= i < |b| ==> b[i] != ']'
    ensures MatchBranchAndTail(b + ("/" + x)) == None
  {
    var u := b + ("/" + x);
    SpanOfRun(b, "/" + x, NameChar);
    forall j | 0 < j <= |b| ensures !TailMatchesAt(u, j) {
      if j < |b| {
        assert u[j..][0] == b[j];
        assert u[j..][1] == u[j + 1];
        assert j + 1 < |b| ==> u[j + 1] == b[j + 1];
        NoTailAt(u[j..]);
      } else {
        assert u[j..][0] == '/';
      }
    }
  }

  /** When the upstream branch itself contains a '/', the bracket group does not match at all. */
  lemma MatchBracketSlash(r: string, b: string, x: string)
    requires IsRun(r, NameChar) && AllIn(b, NameChar)
    requires forall i :: 0 <= i < |b| ==> b[i] != ']'
    ensures MatchBracket("[" + (r + ("/" + (b + ("/" + x))))) == None
  {
    BracketOf(r, b + ("/" + x));
    MatchBranchAndTailSlash(b, x);
  }

  /**
   * A line with a well-formed upstream bracket after the ref records that upstream;
   * a behind count alone is kept, and when both counts are present only the ahead count is.
   */
  lemma ParseUpstream(line: string, star: string, w1: string, t1: string, w2: string, t2: string, w3: string,
                      r: string, b: string, behind: Option<string>, ahead: Option<string>, x: string)
    requires SplitsAs(line, star, w1, t1, w2, t2, w3, "[" + (r + ("/" + (b + (TailText(behind, ahead) + x)))))
    requires IsRun(r, NameChar) && IsRun(b, NameChar)
    requires IsCount(behind) && IsCount(ahead)
    requires x == [] || !IsNameChar(x[0])
    ensures ParseGitBranch(line).Some?
    ensures ParseGitBranch(line).value.isHEAD == (star == "*")
    ensures ParseGitBranch(line).value.localBranch == t1 && ParseGitBranch(line).value.ref == t2
    ensures ParseGitBranch(line).value.upstreamBranch == Some(Upstream(r, b, None))
    ensures ahead.Some? ==>
      ParseGitBranch(line).value.aheadBehind == Some(AheadBehind(Some(DecimalValue(ahead.value)), None))
    ensures ahead.None? && behind.Some? ==>
      ParseGitBranch(line).value.aheadBehind == Some(AheadBehind(None, Some(DecimalValue(behind.value))))
    ensures ahead.None? && behind.None? ==> ParseGitBranch(line).value.aheadBehind.None?
  {
    var rest := "[" + (r + ("/" + (b + (TailText(behind, ahead) + x))));
    MatchPrefixComplete(line, star, w1, t1, w2, t2, w3, rest);
    MatchBracketComplete(r, b, behind, ahead, x);
  }

  /**
   * What the parser records about the upstream is text of the line: there is an upstream
   * exactly when group 4 matches at the end of the whitespace after the ref, and then its
   * remote, its branch and the counts are that bracket's, which starts the rest of the line.
   */
  lemma ParseUpstreamSound(line: string)
    requires ParseGitBranch(line).Some?
    ensures MatchPrefix(line).Some?
    ensures var r := ParseGitBranch(line).value;
      var p := MatchPrefix(line).value;
      var b := MatchBracket(p.rest);
      SplitsAs(line, StarOf(p.isHEAD), p.space1, p.localBranch, p.space2, p.ref, p.space3, p.rest)
      && (r.upstreamBranch.Some? <==> b.Some?)
      && (b.Some? ==>
            BracketText(b.value) <= p.rest
            && r.upstreamBranch == Some(Upstream(b.value.remote, b.value.branch, None))
            && r.aheadBehind == CountsOf(b.value.behind, b.value.ahead))
      && (b.None? ==> r.aheadBehind.None?)
  {
  }

  /**
   * An upstream whose branch part contains a '/' (as in `[origin/feature/x]`) is not
   * recorded, nor are its counts; the line still parses.
   */
  lemma ParseSlashedUpstream(line: string, star: string, w1: string, t1: string, w2: string, t2: string,
                             w3: string, r: string, b: string, x: string)
    requires SplitsAs(line, star, w1, t1, w2, t2, w3, "[" + (r + ("/" + (b + ("/" + x)))))
    requires IsRun(r, NameChar) && AllIn(b, NameChar)
    requires forall i :: 0 <= i < |b| ==> b[i] != ']'
    ensures ParseGitBranch(line) == Some(GitBranch(star == "*", t1, None, None, t2))
  {
    MatchPrefixComplete(line, star, w1, t1, w2, t2, w3, "[" + (r + ("/" + (b + ("/" + x)))));
    MatchBracketSlash(r, b, x);
  }

  // ------------------------------------------------------------- fixtures
  // The lines of the parser tests, written as the pieces the pattern splits them into;
  // msg is the commit subject after the bracket, which starts with a space.

  lemma BehindLineSplits(line: string, msg: string)
    requires msg == [] || msg[0] == ' '
    requires line == "  " + ("master" + ("     " + ("e619393" + (" " + ("[" + ("origin" + ("/" + ("master" + (": behind 4]" + msg)))))))))
    ensures SplitsAs(line, "", "  ", "master", "     ", "e619393", " ",
                     "[" + ("origin" + ("/" + ("master" + (TailText(Some("4"), None) + msg)))))
    ensures IsRun("origin", NameChar) && IsRun("master", NameChar) && IsCount(Some("4"))
    ensures msg == [] || !IsNameChar(msg[0])
    ensures DecimalValue("4") == 4
  {
    assert TailText(Some("4"), None) == ": behind 4]";
  }

  /** The first parser test: a branch four commits behind its upstream. */
  lemma ParseFixtureBehind(line: string, msg: string)
    requires msg == [] || msg[0] == ' '
    requires line == "  " + ("master" + ("     " + ("e619393" + (" " + ("[" + ("origin" + ("/" + ("master" + (": behind 4]" + msg)))))))))
    ensures ParseGitBranch(line)
      == Some(GitBranch(false, "master", Some(Upstream("origin", "master", None)), Some(AheadBehind(None, Some(4))), "e619393"))
  {
    BehindLineSplits(line, msg);
    ParseUpstream(line, "", "  ", "master", "     ", "e619393", " ", "origin", "master", Some("4"), None, msg);
  }

  lemma TrackingLineSplits(line: string, msg: string)
    requires msg == [] || msg[0] == ' '
    requires line == "*" + (" " + ("vplugin-id" + (" " + ("57f328a" + (" " + ("[" + ("sunix" + ("/" + ("master" + ("]" + msg))))))))))
    ensures SplitsAs(line, "*", " ", "vplugin-id", " ", "57f328a", " ",
                     "[" + ("sunix" + ("/" + ("master" + (TailText(None, None) + msg)))))
    ensures IsRun("sunix", NameChar) && IsRun("master", NameChar)
    ensures msg == [] || !IsNameChar(msg[0])
  {
    assert TailText(None, None) == "]";
  }

  /** The second parser test: the checked-out branch, tracking an upstream it is level with. */
  lemma ParseFixtureTracking(line: string, msg: string)
    requires msg == [] || msg[0] == ' '
    requires line == "*" + (" " + ("vplugin-id" + (" " + ("57f328a" + (" " + ("[" + ("sunix" + ("/" + ("master" + ("]" + msg))))))))))
    ensures ParseGitBranch(line) == Some(GitBranch(true, "vplugin-id", Some(Upstream("sunix", "master", None)), None, "57f328a"))
  {
    TrackingLineSplits(line, msg);
    ParseUpstream(line, "*", " ", "vplugin-id", " ", "57f328a", " ", "sunix", "master", None, None, msg);
  }

  lemma SlashedLineSplits(line: string, msg: string)
    requires line == "*" + (" " + ("fix" + (" " + ("57f328a" + (" " + ("[" + ("origin" + ("/" + ("feature" + ("/" + ("x: ahead 2]" + msg)))))))))))
    ensures SplitsAs(line, "*", " ", "fix", " ", "57f328a", " ", "[" + ("origin" + ("/" + ("feature" + ("/" + ("x: ahead 2]" + msg))))))
    ensures IsRun("origin", NameChar) && AllIn("feature", NameChar)
    ensures forall i :: 0 <= i < |"feature"| ==> "feature"[i] != ']'
  {
  }

  /** An upstream branch with a '/' in it: the line parses, but records neither upstream nor counts. */
  lemma ParseFixtureSlashedUpstream(line: string, msg: string)
    requires line == "*" + (" " + ("fix" + (" " + ("57f328a" + (" " + ("[" + ("origin" + ("/" + ("feature" + ("/" + ("x: ahead 2]" + msg)))))))))))
    ensures ParseGitBranch(line) == Some(GitBranch(true, "fix", None, None, "57f328a"))
  {
    SlashedLineSplits(line, msg);
    ParseSlashedUpstream(line, "*", " ", "fix", " ", "57f328a", " ", "origin", "feature", "x: ahead 2]" + msg);
  }

  /** `parseInt` ignores leading zeros: a count written with one more leading '0' has the same value. */
  lemma {:induction false} DecimalLeadingZero(d: string)
    ensures DecimalValue("0" + d) == DecimalValue(d)
  {
    if d != [] {
      var z := "0" + d;
      assert z[..|z| - 1] == "0" + d[..|d| - 1];
      assert z[|z| - 1] == d[|d| - 1];
      DecimalLeadingZero(d[..|d| - 1]);
    }
  }

  // ------------------------------------------------------ repository root

  lemma EndsWithLast(s: string, suffix: string)
    requires EndsWith(s, suffix) && suffix != []
    ensures s[|s| - 1] == suffix[|suffix| - 1]
  {
    assert s[|s| - |suffix|..][|suffix| - 1] == s[|s| - 1];
  }

  /** The repository root of a watched `.git/config` or `.git/HEAD` file is its folder, trailing '/' kept. */
  lemma GitRootOfRepoFile(folder: string)
    ensures GetGitRootFolder(folder + ("/" + ConfigFile)) == folder + "/"
    ensures GetGitRootFolder(folder + ("/" + HeadFile)) == folder + "/"
  {
    var c := folder + ("/" + ConfigFile);
    assert c[|folder|..] == "/" + ConfigFile;
    ConcatAssoc(folder, "/", ConfigFile);
    var h := folder + ("/" + HeadFile);
    assert h[|folder|..] == "/" + HeadFile;
    ConcatAssoc(folder, "/", HeadFile);
    if EndsWith(h, "/" + ConfigFile) {
      EndsWithLast(h, "/" + ConfigFile);
    }
  }

  /** Stripping the suffix once is enough: the root of a root is the root itself. */
  lemma GitRootIdempotent(uri: string)
    ensures GetGitRootFolder(GetGitRootFolder(uri)) == GetGitRootFolder(uri)
  {
    var root := GetGitRootFolder(uri);
    if root != uri {
      if EndsWith(root, "/" + ConfigFile) { EndsWithLast(root, "/" + ConfigFile); }
      if EndsWith(root, "/" + HeadFile) { EndsWithLast(root, "/" + HeadFile); }
    }
  }
}
