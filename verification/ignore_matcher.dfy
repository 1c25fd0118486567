/** Which scanner-reported paths an ignore list matches. */
module IgnoreMatcher {
  import opened Wrappers
  import opened Glob
  import opened Text

  // ----- Paths -------------------------------------------------------------------------------

  function Slashed(s: string): string {
    if s == [] then "" else [if s[0] == '\\' then '/' else s[0]] + Slashed(s[1..])
  }

  /** Strips the container mount, whichever of the two comes first. */
  function Normalise(path: string): string {
    var p := LStrip(Slashed(path));
    if "/src/" <= p then p[|"/src/"|..]
    else if "/workspace/" <= p then p[|"/workspace/"|..]
    else p
  }

  /** `s.split("/")`. */
  function Segments(s: string): (r: seq<string>)
    ensures r != []
  {
    if s == [] then [""]
    else
      var r := Segments(s[1..]);
      if s[0] == '/' then [""] + r else [[s[0]] + r[0]] + r[1..]
  }

  function Basename(s: string): string {
    Segments(s)[|Segments(s)| - 1]
  }

  function RStripSlashes(s: string): (r: string)
    ensures |r| <= |s|
  {
    if s != [] && s[|s| - 1] == '/' then RStripSlashes(s[..|s| - 1]) else s
  }

  predicate HasDoubleStar(pat: string) {
    exists i :: 0 <= i < |pat| - 1 && pat[i] == '*' && pat[i + 1] == '*'
  }

  predicate EndsWithSlash(pat: string) {
    pat != [] && pat[|pat| - 1] == '/'
  }

  predicate MatchesDirectory(norm: string, pat: string, classes: Classes) {
    var p := RStripSlashes(pat);
    || p in Segments(norm)
    || Shell(norm, "*" + p + "/*", classes)
    || Shell(norm, "*/" + p + "/*", classes)
  }

  predicate MatchesGlob(norm: string, pat: string, classes: Classes) {
    || Shell(norm, pat, classes)
    || Shell(Basename(norm), pat, classes)
    || (HasDoubleStar(pat) && Match(RegexTokens(pat), norm, classes))
  }

  predicate MatchesPattern(norm: string, pat: string, classes: Classes) {
    if EndsWithSlash(pat) then MatchesDirectory(norm, pat, classes) else MatchesGlob(norm, pat, classes)
  }

  /** Some pattern matches the normalised path; an absent path matches nothing. */
  predicate Ignored(path: string, patterns: seq<string>, classes: Classes) {
    path != "" && exists i :: 0 <= i < |patterns| && MatchesPattern(Normalise(path), patterns[i], classes)
  }

  method MatchesAny(path: string, patterns: seq<string>, classes: Classes) returns (r: bool)
    ensures r == Ignored(path, patterns, classes)
  {
    hide MatchesDirectory, MatchesGlob;
    if path == "" {
      return false;
    }
    var norm := Normalise(path);
    for n := 0 to |patterns|
      invariant forall i :: 0 <= i < n ==> !MatchesPattern(norm, patterns[i], classes)
    {
      var pat := patterns[n];
      if EndsWithSlash(pat) {
        if MatchesDirectory(norm, pat, classes) {
          return true;
        }
      } else if MatchesGlob(norm, pat, classes) {
        return true;
      }
    }
    r := false;
  }

  // ----- The regular-expression branch ---------------------------------------------------------

  lemma ShellTokensCons(c: char, rest: string)
    ensures c == '*' ==> ShellTokens([c] + rest) == [Many(AnyChar)] + ShellTokens(rest)
    ensures c == '?' ==> ShellTokens([c] + rest) == [One(AnyChar)] + ShellTokens(rest)
    ensures c != '*' && c != '?' && c != '[' ==> ShellTokens([c] + rest) == [One(Just(c))] + ShellTokens(rest)
  {
    assert ([c] + rest)[1..] == rest;
  }

  lemma TailHasNoClass(pat: string)
    requires pat != [] && !HasClass(pat)
    ensures !HasClass(pat[1..])
    ensures ShellTokens(pat) == [if pat[0] == '*' then Many(AnyChar) else if pat[0] == '?' then One(AnyChar) else One(Just(pat[0]))]
      + ShellTokens(pat[1..])
  {
    var toks := ShellTokens(pat);
    assert toks[0] in toks;
    if pat[0] == '[' && ClassEnd(pat).Some? {
      assert false;
    }
    assert toks[1..] == ShellTokens(pat[1..]);
    assert forall i :: 0 <= i < |ShellTokens(pat[1..])| ==> ShellTokens(pat[1..])[i] == toks[i + 1];
  }

  /** Without a character class, whatever the regular expression accepts the shell
      pattern accepts too. */
  lemma {:induction false} RegexImpliesShell(pat: string, s: string, classes: Classes)
    requires !HasClass(pat) && Match(RegexTokens(pat), s, classes)
    ensures Shell(s, pat, classes)
    decreases |pat| + |s|
  {
    hide HasClass, ShellTokens;
    if pat == [] {
      assert ShellTokens("") == [] by { NoTokens(); }
    } else {
      var rx := RegexTokens(pat);
      TailHasNoClass(pat);
      if |pat| >= 2 && pat[0] == '*' && pat[1] == '*' {
        TailHasNoClass(pat[1..]);
        assert pat[1..][1..] == pat[2..] && rx[1..] == RegexTokens(pat[2..]);
        if Match(rx[1..], s, classes) {
          RegexImpliesShell(pat[2..], s, classes);
          assert ShellTokens(pat[1..])[1..] == ShellTokens(pat[2..]);
          assert ShellTokens(pat)[1..] == ShellTokens(pat[1..]);
          assert Match(ShellTokens(pat[1..]), s, classes);
        } else {
          RegexImpliesShell(pat, s[1..], classes);
        }
      } else if pat[0] == '*' {
        assert rx[1..] == RegexTokens(pat[1..]) && ShellTokens(pat)[1..] == ShellTokens(pat[1..]);
        if Match(rx[1..], s, classes) {
          RegexImpliesShell(pat[1..], s, classes);
        } else {
          RegexImpliesShell(pat, s[1..], classes);
        }
      } else {
        assert rx[1..] == RegexTokens(pat[1..]) && ShellTokens(pat)[1..] == ShellTokens(pat[1..]);
        RegexImpliesShell(pat[1..], s[1..], classes);
      }
    }
  }

  lemma NoTokens()
    ensures ShellTokens("") == []
  {
  }

  /** So for such patterns the regular-expression branch never changes the answer. */
  lemma RegexBranchIsRedundant(norm: string, pat: string, classes: Classes)
    requires !HasClass(pat)
    ensures MatchesGlob(norm, pat, classes) <==> Shell(norm, pat, classes) || Shell(Basename(norm), pat, classes)
  {
    if Match(RegexTokens(pat), norm, classes) {
      RegexImpliesShell(pat, norm, classes);
    }
  }

  lemma {:induction false} NoBracketNoClass(pat: string)
    requires '[' !in pat
    ensures !HasClass(pat)
  {
    if pat != [] {
      NoBracketNoClass(pat[1..]);
      assert pat[0] in pat;
      assert pat == [pat[0]] + pat[1..];
      assert !ShellTokens(pat)[0].chars.Bracket?;
      assert ShellTokens(pat)[1..] == ShellTokens(pat[1..]);
      forall i | 0 <= i < |ShellTokens(pat)| ensures !ShellTokens(pat)[i].chars.Bracket? {
        if i > 0 {
          assert ShellTokens(pat[1..])[i - 1] == ShellTokens(pat)[i];
        }
      }
    }
  }

  /** With a class it can: the expression for `**[a]` accepts the path `[a]`, which the
      shell pattern rejects when the class `a` does not hold `]`. */
  lemma RegexBranchCanDecide(classes: Classes)
    requires !classes("a", ']')
    ensures MatchesGlob("[a]", "**[a]", classes)
    ensures !Shell("[a]", "**[a]", classes) && !Shell(Basename("[a]"), "**[a]", classes)
  {
    var pat, s := "**[a]", "[a]";
    assert pat[0] == '*' && pat[1] == '*';
    RegexTokensHere(pat);
    ShellTokensHere(pat);
    RegexAccepts(s, classes);
    EndsInClass(s, classes);
    OneSegment(s);
  }

  lemma RegexTokensHere(pat: string)
    requires pat == "**[a]"
    ensures RegexTokens(pat) == [Many(NotNewline), One(Just('[')), One(Just('a')), One(Just(']'))]
  {
    assert pat[2..] == "[a]" && "[a]"[1..] == "a]" && "a]"[1..] == "]" && "]"[1..] == "";
    assert RegexTokens("]") == [One(Just(']'))];
    assert RegexTokens("a]") == [One(Just('a')), One(Just(']'))];
    assert RegexTokens("[a]") == [One(Just('[')), One(Just('a')), One(Just(']'))];
  }

  lemma ShellTokensHere(pat: string)
    requires pat == "**[a]"
    ensures ShellTokens(pat) == [Many(AnyChar), Many(AnyChar), One(Bracket("a"))]
  {
    assert Find("[a]", ']', 1) == Some(2);
    assert "[a]"[1..2] == "a" && "[a]"[3..] == "";
    assert ShellTokens("[a]") == [One(Bracket("a"))];
    assert pat[1..] == "*[a]" && "*[a]"[1..] == "[a]";
    assert ShellTokens("*[a]") == [Many(AnyChar), One(Bracket("a"))];
  }

  lemma RegexAccepts(s: string, classes: Classes)
    requires s == "[a]"
    ensures Match([Many(NotNewline), One(Just('[')), One(Just('a')), One(Just(']'))], s, classes)
  {
    var toks := [Many(NotNewline), One(Just('[')), One(Just('a')), One(Just(']'))];
    var parts := ["", "[", "a", "]"];
    assert parts[1..] == ["[", "a", "]"] && parts[1..][1..] == ["a", "]"] && ["a", "]"][1..] == ["]"] && ["]"][1..] == [];
    assert Flat(["]"]) == "]" && Flat(["a", "]"]) == "a]" && Flat(["[", "a", "]"]) == "[a]";
    assert Flat(parts) == "" + "[a]" == s;
    assert Fits(toks[0], parts[0], classes) && Fits(toks[1], parts[1], classes);
    assert Fits(toks[2], parts[2], classes) && Fits(toks[3], parts[3], classes);
    MatchIsComplete(toks, parts, classes);
  }

  lemma OneSegment(s: string)
    requires '/' !in s
    ensures Basename(s) == s
  {
    FirstSegment(s);
    assert forall i :: 0 <= i < |s| ==> s[i] in s;
  }

  /** Two stars and a class accept only strings that end in the class. */
  lemma EndsInClass(s: string, classes: Classes)
    requires s != []
    ensures Match([Many(AnyChar), Many(AnyChar), One(Bracket("a"))], s, classes) ==> classes("a", s[|s| - 1])
  {
    var toks := [Many(AnyChar), Many(AnyChar), One(Bracket("a"))];
    if Match(toks, s, classes) {
      var parts := MatchIsSound(toks, s, classes);
      assert parts[1..][1..] == [parts[2]];
      assert Fits(toks[2], parts[2], classes);
      assert Flat([parts[2]]) == parts[2] + "";
      assert s == parts[0] + (parts[1] + parts[2]);
      assert s[|s| - 1] == parts[2][0] && parts[2][0] in parts[2];
    }
  }

  /** The answer for one pattern without the regular-expression branch. */
  predicate ShellOnly(norm: string, pat: string, classes: Classes) {
    if EndsWithSlash(pat) then MatchesDirectory(norm, pat, classes)
    else Shell(norm, pat, classes) || Shell(Basename(norm), pat, classes)
  }

  /** The branch changes no answer, whatever path is asked about and whatever the classes hold. */
  ghost predicate BranchIsIdle(pat: string) {
    forall path, classes ::
      path != "" ==> MatchesPattern(Normalise(path), pat, classes) == ShellOnly(Normalise(path), pat, classes)
  }

  /** The regular-expression branch can be left out exactly for the patterns it does not
      look at, those without a character class, and those with a backslash, which no
      normalised path has. */
  lemma RegexBranchIsIdleIff(pat: string)
    ensures BranchIsIdle(pat) <==> EndsWithSlash(pat) || !HasDoubleStar(pat) || !HasClass(pat) || '\\' in pat
  {
    hide HasClass, Normalise, Basename, MatchesDirectory, Shell, HasDoubleStar;
    if !EndsWithSlash(pat) && HasDoubleStar(pat) && HasClass(pat) && '\\' !in pat {
      var none: Classes := (body, c) => false;
      var path := "/src/" + Starless(pat);
      StarlessIsAccepted(pat, none);
      SourcePath(Starless(pat));
      forall s ensures !Shell(s, pat, none) {
        NoEmptyClassMatches(pat, s, none);
      }
      assert MatchesPattern(Normalise(path), pat, none) != ShellOnly(Normalise(path), pat, none);
    }
    forall path, classes | path != "" && (!HasClass(pat) || '\\' in pat)
      ensures MatchesPattern(Normalise(path), pat, classes) == ShellOnly(Normalise(path), pat, classes)
    {
      if !HasClass(pat) {
        RegexBranchIsRedundant(Normalise(path), pat, classes);
      } else if Match(RegexTokens(pat), Normalise(path), classes) {
        LiteralIsNeeded(pat, Normalise(path), '\\', classes);
        NoBackslash(path);
      }
    }
  }

  /** The shortest string that the regular expression of a pattern accepts. */
  function Starless(pat: string): (r: string)
    ensures forall c :: c in r ==> c in pat
  {
    if pat == [] then "" else (if pat[0] == '*' then "" else [pat[0]]) + Starless(pat[1..])
  }

  lemma {:induction false} StarlessIsAccepted(pat: string, classes: Classes)
    ensures Match(RegexTokens(pat), Starless(pat), classes)
    decreases |pat|
  {
    if |pat| >= 2 && pat[0] == '*' && pat[1] == '*' {
      StarlessIsAccepted(pat[2..], classes);
      assert pat[1..][1..] == pat[2..] && RegexTokens(pat)[1..] == RegexTokens(pat[2..]);
      assert Starless(pat) == Starless(pat[1..]) == Starless(pat[2..]);
    } else if pat != [] {
      StarlessIsAccepted(pat[1..], classes);
      var rest := RegexTokens(pat[1..]);
      if pat[0] == '*' {
        assert RegexTokens(pat) == [Many(NotSlash)] + rest && RegexTokens(pat)[1..] == rest;
        assert Starless(pat) == Starless(pat[1..]);
      } else {
        assert RegexTokens(pat) == [One(Just(pat[0]))] + rest && RegexTokens(pat)[1..] == rest;
        assert Starless(pat) == [pat[0]] + Starless(pat[1..]) && Starless(pat)[1..] == Starless(pat[1..]);
        assert InSet(Just(pat[0]), Starless(pat)[0], classes);
      }
    }
  }

  /** A shell pattern with a class matches nothing unless some class holds something. */
  lemma AClassIsUsed(pat: string, s: string, classes: Classes)
    requires HasClass(pat) && Shell(s, pat, classes)
    ensures exists body, c :: classes(body, c)
  {
    ClassesStandAlone(pat);
    var toks := ShellTokens(pat);
    var i :| 0 <= i < |toks| && toks[i].chars.Bracket?;
    var parts := MatchIsSound(toks, s, classes);
    assert toks[i] in toks && Fits(toks[i], parts[i], classes);
    assert parts[i][0] in parts[i];
    assert classes(toks[i].chars.body, parts[i][0]);
  }

  lemma NoEmptyClassMatches(pat: string, s: string, none: Classes)
    requires HasClass(pat) && forall body, c :: !none(body, c)
    ensures !Shell(s, pat, none)
  {
    hide Shell, HasClass;
    if Shell(s, pat, none) {
      AClassIsUsed(pat, s, none);
    }
  }

  lemma {:induction false} ClassesStandAlone(pat: string)
    ensures forall t :: t in ShellTokens(pat) && t.chars.Bracket? ==> t.One?
    decreases |pat|
  {
    if pat != [] {
      var n := if pat[0] == '[' && ClassEnd(pat).Some? then ClassEnd(pat).value + 1 else 1;
      ClassesStandAlone(pat[n..]);
      assert ShellTokens(pat) == ShellTokens(pat)[..1] + ShellTokens(pat[n..]);
    }
  }

  /** What a regular expression accepts has every literal of its pattern. */
  lemma {:induction false} LiteralIsNeeded(pat: string, s: string, c: char, classes: Classes)
    requires c in pat && c != '*' && Match(RegexTokens(pat), s, classes)
    ensures c in s
    decreases |pat| + |s|
  {
    var n := if |pat| >= 2 && pat[0] == '*' && pat[1] == '*' then 2 else 1;
    assert RegexTokens(pat)[1..] == RegexTokens(pat[n..]);
    if pat[0] == c {
      assert s[0] == c;
    } else {
      assert pat == pat[..n] + pat[n..] && c in pat[n..];
      if pat[0] != '*' {
        LiteralIsNeeded(pat[n..], s[1..], c, classes);
      } else if Match(RegexTokens(pat[n..]), s, classes) {
        LiteralIsNeeded(pat[n..], s, c, classes);
      } else {
        LiteralIsNeeded(pat, s[1..], c, classes);
      }
    }
  }

  lemma NoBackslash(path: string)
    ensures '\\' !in Normalise(path)
  {
    SlashedHasNone(path);
    LStripKeeps(Slashed(path));
  }

  lemma SlashedHasNone(s: string)
    ensures '\\' !in Slashed(s)
    ensures '\\' !in s ==> Slashed(s) == s
  {
    if s != [] {
      SlashedHasNone(s[1..]);
    }
  }

  lemma LStripKeeps(s: string)
    ensures forall c :: c in LStrip(s) ==> c in s
  {
  }

  /** Any string without a backslash is what some path is normalised to. */
  lemma SourcePath(s: string)
    requires '\\' !in s
    ensures Normalise("/src/" + s) == s
  {
    var path := "/src/" + s;
    SlashedHasNone(path);
    assert path[0] == '/';
    assert path[..5] == "/src/" && path[5..] == s;
  }

  // ----- Directory patterns ----------------------------------------------------------------------

  /** The third test of a directory pattern adds nothing to the second. */
  lemma ThirdDirectoryTestIsRedundant(norm: string, p: string, classes: Classes)
    requires Shell(norm, "*/" + p + "/*", classes)
    ensures Shell(norm, "*" + p + "/*", classes)
  {
    var q := p + "/*";
    assert "*" + p + "/*" == ['*'] + q && "*/" + p + "/*" == ['*'] + (['/'] + q);
    ShellTokensCons('*', q);
    ShellTokensCons('*', ['/'] + q);
    ShellTokensCons('/', q);
    DropSlash(ShellTokens(q), norm, classes);
  }

  lemma {:induction false} DropSlash(toks: seq<Token>, s: string, classes: Classes)
    requires Match([Many(AnyChar)] + ([One(Just('/'))] + toks), s, classes)
    ensures Match([Many(AnyChar)] + toks, s, classes)
    decreases |s|
  {
    var long, short := [Many(AnyChar)] + ([One(Just('/'))] + toks), [Many(AnyChar)] + toks;
    assert long[1..] == [One(Just('/'))] + toks && long[1..][1..] == toks && short[1..] == toks;
    if Match(long[1..], s, classes) {
      assert Match(toks, s[1..], classes);
      assert Match(short, s[1..], classes);
    } else {
      DropSlash(toks, s[1..], classes);
    }
  }

  predicate Plain(p: string) {
    '*' !in p && '?' !in p && '[' !in p
  }

  function Literals(p: string): (r: seq<Token>)
    ensures |r| == |p|
    ensures forall i :: 0 <= i < |p| ==> r[i] == One(Just(p[i]))
  {
    seq(|p|, i requires 0 <= i < |p| => One(Just(p[i])))
  }

  lemma PlainTail(p: string)
    requires Plain(p) && p != []
    ensures Plain(p[1..]) && p[0] != '*' && p[0] != '?' && p[0] != '['
  {
    assert p[0] in p && forall c :: c in p[1..] ==> c in p;
  }

  lemma {:induction false} PlainTokens(p: string, rest: string)
    requires Plain(p)
    ensures ShellTokens(p + rest) == Literals(p) + ShellTokens(rest)
  {
    hide ShellTokens, Plain;
    if p == [] {
      assert p + rest == rest && Literals(p) + ShellTokens(rest) == ShellTokens(rest);
    } else {
      PlainTail(p);
      PlainTokens(p[1..], rest);
      assert p + rest == [p[0]] + (p[1..] + rest);
      ShellTokensCons(p[0], p[1..] + rest);
      assert Literals(p) == [One(Just(p[0]))] + Literals(p[1..]);
      var first, middle, last := [One(Just(p[0]))], Literals(p[1..]), ShellTokens(rest);
      assert (first + middle) + last == first + (middle + last);
    }
  }

  lemma {:induction false} LiteralsMatch(p: string, toks: seq<Token>, s: string, classes: Classes)
    ensures Match(Literals(p) + toks, s, classes) <==> p <= s && Match(toks, s[|p|..], classes)
  {
    if p == [] {
      assert Literals(p) + toks == toks && s[0..] == s;
    } else {
      assert (Literals(p) + toks)[1..] == Literals(p[1..]) + toks;
      if s != [] && s[0] == p[0] {
        LiteralsMatch(p[1..], toks, s[1..], classes);
        assert s == [s[0]] + s[1..] && p == [p[0]] + p[1..];
        assert p <= s <==> p[1..] <= s[1..];
        if p <= s {
          assert s[1..][|p| - 1..] == s[|p|..];
        }
      }
    }
  }

  lemma {:induction false} StarMatchesAll(s: string, classes: Classes)
    ensures Match([Many(AnyChar)], s, classes)
  {
    if s != [] {
      StarMatchesAll(s[1..], classes);
    } else {
      assert [Many(AnyChar)][1..] == [];
    }
  }

  /** `part` begins at position `at` of `s`. */
  predicate OccursAt(s: string, part: string, at: nat) {
    at + |part| <= |s| && s[at..at + |part|] == part
  }

  ghost predicate Occurs(s: string, part: string) {
    exists at: nat :: OccursAt(s, part, at)
  }

  lemma {:induction false} StarThen(toks: seq<Token>, s: string, classes: Classes)
    ensures Match([Many(AnyChar)] + toks, s, classes) <==> exists at: nat :: at <= |s| && Match(toks, s[at..], classes)
    decreases |s|
  {
    var all := [Many(AnyChar)] + toks;
    assert all[1..] == toks && s[0..] == s;
    if s != [] {
      StarThen(toks, s[1..], classes);
      if at: nat :| at <= |s| && Match(toks, s[at..], classes) {
        if at > 0 {
          assert s[1..][at - 1..] == s[at..];
        }
      }
      if at: nat :| at <= |s[1..]| && Match(toks, s[1..][at..], classes) {
        assert s[1..][at..] == s[at + 1..];
      }
    }
  }

  /** The glob of a plain directory pattern accepts exactly the paths in which the
      name followed by a slash occurs, at the start of a segment or not. */
  lemma DirectoryGlobMeaning(norm: string, p: string, classes: Classes)
    requires Plain(p)
    ensures Shell(norm, "*" + p + "/*", classes) <==> Occurs(norm, p + "/")
  {
    var q := p + "/";
    assert "*" + p + "/*" == ['*'] + (q + "*") && "*" == ['*'] + "";
    ShellTokensCons('*', q + "*");
    PlainTokens(q, "*");
    ShellTokensCons('*', "");
    NoTokens();
    var toks := Literals(q) + [Many(AnyChar)];
    assert ShellTokens("*") == [Many(AnyChar)];
    StarThen(toks, norm, classes);
    forall at: nat | at <= |norm| ensures Match(toks, norm[at..], classes) <==> OccursAt(norm, q, at) {
      LiteralsMatch(q, [Many(AnyChar)], norm[at..], classes);
      if q <= norm[at..] {
        StarMatchesAll(norm[at..][|q|..], classes);
      }
    }
  }

  /** Some segment before the last ends with `p`. */
  ghost predicate InnerSegmentEndsWith(s: string, p: string) {
    exists i :: 0 <= i < |Segments(s)| - 1 && EndsWith(Segments(s)[i], p)
  }

  predicate EndsWith(s: string, p: string) {
    |p| <= |s| && s[|s| - |p|..] == p
  }

  lemma {:induction false} OccursInSegment(s: string, p: string)
    requires '/' !in p
    ensures Occurs(s, p + "/") <==> InnerSegmentEndsWith(s, p)
  {
    if s == [] {
      assert !Occurs(s, p + "/");
    } else {
      var t := s[1..];
      OccursInSegment(t, p);
      assert Occurs(s, p + "/") <==> Occurs(t, p + "/") || p + "/" <= s by { OccursStep(s, p + "/"); }
      SegmentsStep(s, p);
    }
  }

  lemma OccursStep(s: string, part: string)
    requires s != []
    ensures Occurs(s, part) <==> Occurs(s[1..], part) || part <= s
  {
    if at: nat :| OccursAt(s, part, at) {
      if at > 0 {
        assert s[1..][at - 1..at - 1 + |part|] == s[at..at + |part|];
        assert OccursAt(s[1..], part, at - 1);
      }
    }
    if at: nat :| OccursAt(s[1..], part, at) {
      assert s[1..][at..at + |part|] == s[at + 1..at + 1 + |part|];
      assert OccursAt(s, part, at + 1);
    }
    if part <= s {
      assert OccursAt(s, part, 0);
    }
  }

  /** The first segment is the text before the first slash. */
  lemma {:induction false} FirstSegment(s: string)
    ensures Segments(s)[0] <= s && '/' !in Segments(s)[0]
    ensures if |Segments(s)| == 1 then Segments(s)[0] == s
            else |Segments(s)[0]| < |s| && s[|Segments(s)[0]|] == '/'
  {
    if s != [] {
      FirstSegment(s[1..]);
      if s[0] != '/' {
        assert s == [s[0]] + s[1..];
      }
    }
  }

  lemma SegmentsStep(s: string, p: string)
    requires s != [] && '/' !in p
    ensures InnerSegmentEndsWith(s, p) <==> InnerSegmentEndsWith(s[1..], p) || p + "/" <= s
  {
    hide EndsWith;
    var all, rest := Segments(s), Segments(s[1..]);
    if p + "/" <= s {
      assert s[|p|] == (p + "/")[|p|] && s[..|p|] == p;
      PrefixIsFirstSegment(s, p);
    }
    if i :| 0 <= i < |all| - 1 && EndsWith(all[i], p) {
      if i == 0 {
        HeadEndsWith(s, p);
      } else if s[0] == '/' {
        assert rest[i - 1] == all[i];
      } else {
        assert rest[i] == all[i];
      }
    }
    if i :| 0 <= i < |rest| - 1 && EndsWith(rest[i], p) {
      if s[0] == '/' {
        assert all[i + 1] == rest[i];
      } else if i == 0 {
        Lengthened(s[0], rest[0], p);
      } else {
        assert all[i] == rest[i];
      }
    }
  }

  lemma Lengthened(c: char, s: string, p: string)
    requires EndsWith(s, p)
    ensures EndsWith([c] + s, p)
  {
    assert ([c] + s)[1 + |s| - |p|..] == s[|s| - |p|..];
  }

  /** A first segment that ends with `p` is `p`, or ends with it one character later. */
  lemma HeadEndsWith(s: string, p: string)
    requires s != [] && |Segments(s)| > 1 && EndsWith(Segments(s)[0], p)
    ensures p + "/" <= s || InnerSegmentEndsWith(s[1..], p)
  {
    hide Segments;
    FirstSegment(s);
    var head, t := Segments(s)[0], s[1..];
    if |p| == |head| {
      WholeHead(s, head, p);
    } else {
      assert s == [s[0]] + t;
      SegmentsCons(s[0], t);
      LongerHead(s[0], t, p);
    }
  }

  lemma WholeHead(s: string, head: string, p: string)
    requires head <= s && |head| < |s| && s[|head|] == '/' && EndsWith(head, p) && |p| == |head|
    ensures p + "/" <= s
  {
    assert head == p && s[..|p| + 1] == p + "/";
  }

  lemma LongerHead(c: char, t: string, p: string)
    requires |Segments([c] + t)| > 1 && EndsWith(Segments([c] + t)[0], p) && |p| < |Segments([c] + t)[0]|
    ensures InnerSegmentEndsWith(t, p)
  {
    hide Segments;
    SegmentsCons(c, t);
    Shortened(c, Segments(t)[0], p);
  }

  lemma Shortened(c: char, s: string, p: string)
    requires EndsWith([c] + s, p) && |p| <= |s|
    ensures EndsWith(s, p)
  {
    assert ([c] + s)[1 + |s| - |p|..] == s[|s| - |p|..];
  }

  lemma PrefixIsFirstSegment(s: string, p: string)
    requires '/' !in p && |p| < |s| && s[|p|] == '/' && s[..|p|] == p
    ensures Segments(s)[0] == p && |Segments(s)| > 1 && EndsWith(Segments(s)[0], p)
  {
    FirstSegment(s);
    var head := Segments(s)[0];
    assert forall i :: 0 <= i < |p| ==> s[i] == p[i] && p[i] in p;
    assert forall i :: 0 <= i < |head| ==> head[i] == s[i] && head[i] in head;
  }

  /** A plain directory pattern `p/` matches exactly when `p` is the last segment or
      some earlier segment ends with it; equality with an earlier segment is enough,
      but not needed. */
  lemma DirectoryPatternMeaning(norm: string, pat: string, classes: Classes)
    requires EndsWithSlash(pat) && Plain(RStripSlashes(pat)) && '/' !in RStripSlashes(pat)
    ensures
      var p := RStripSlashes(pat);
      MatchesPattern(norm, pat, classes) <==> Basename(norm) == p || InnerSegmentEndsWith(norm, p)
  {
    hide Segments;
    var p := RStripSlashes(pat);
    DirectoryGlobMeaning(norm, p, classes);
    OccursInSegment(norm, p);
    if Shell(norm, "*/" + p + "/*", classes) {
      ThirdDirectoryTestIsRedundant(norm, p, classes);
    }
    if p in Segments(norm) {
      var i :| 0 <= i < |Segments(norm)| && Segments(norm)[i] == p;
      if i < |Segments(norm)| - 1 {
        assert EndsWith(Segments(norm)[i], p);
      }
    }
  }

  /** So `test/` ignores `latest/x`, though no segment of that path is `test`. */
  lemma DirectoryPatternOverreaches(classes: Classes)
    ensures Ignored("latest/x", ["test/"], classes) && "test" !in Segments("latest/x")
  {
    hide MatchesPattern, Plain, RStripSlashes, Normalise, Segments, EndsWith, InnerSegmentEndsWith;
    var path, pat := "latest/x", "test/";
    SegmentsHere(path);
    StrippedHere(pat);
    DirectoryPatternMeaning(path, pat, classes);
    NormaliseHere(path);
    assert MatchesPattern(Normalise(path), [pat][0], classes);
  }

  lemma StrippedHere(pat: string)
    requires pat == "test/"
    ensures RStripSlashes(pat) == "test" && EndsWithSlash(pat) && Plain("test")
  {
    assert pat[..4] == "test";
  }

  lemma NormaliseHere(path: string)
    requires path == "latest/x"
    ensures Normalise(path) == path
  {
    SlashedHasNone(path);
    assert path[0] == 'l';
  }

  lemma SegmentsHere(path: string)
    requires path == "latest/x"
    ensures "test" !in Segments(path) && InnerSegmentEndsWith(path, "test")
  {
    TwoSegments("latest", "x");
    assert path == "latest" + "/" + "x";
    hide Segments;
    assert "latest"[2..] == "test";
    assert EndsWith(Segments(path)[0], "test");
    assert "x"[0] != "test"[0] && |"latest"| != |"test"|;
  }

  lemma SegmentsCons(c: char, s: string)
    ensures Segments([c] + s) == if c == '/' then [""] + Segments(s) else [[c] + Segments(s)[0]] + Segments(s)[1..]
  {
    assert ([c] + s)[1..] == s;
  }

  lemma {:induction false} TwoSegments(a: string, b: string)
    requires '/' !in a && '/' !in b
    ensures Segments(a + "/" + b) == [a, b]
  {
    if a == [] {
      assert a + "/" + b == ['/'] + b;
      SegmentsCons('/', b);
      FirstSegment(b);
      assert forall i :: 0 <= i < |b| ==> b[i] in b;
    } else {
      var t := a[1..];
      assert a == [a[0]] + t && a[0] in a;
      assert forall c :: c in t ==> c in a;
      TwoSegments(t, b);
      SegmentsCons(a[0], t + "/" + b);
      hide Segments;
      assert a + "/" + b == [a[0]] + (t + "/" + b);
    }
  }

  /** An ignore list of two parts ignores what either part ignores. */
  lemma IgnoredByParts(path: string, p: seq<string>, q: seq<string>, classes: Classes)
    ensures Ignored(path, p + q, classes) <==> Ignored(path, p, classes) || Ignored(path, q, classes)
  {
    hide MatchesPattern;
    var norm := Normalise(path);
    if i :| 0 <= i < |p| && MatchesPattern(norm, p[i], classes) {
      assert (p + q)[i] == p[i];
    }
    if i :| 0 <= i < |q| && MatchesPattern(norm, q[i], classes) {
      assert (p + q)[|p| + i] == q[i];
    }
  }
}
