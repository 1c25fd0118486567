/** The two glob languages of the ignore list: shell patterns, and the regular
    expressions that patterns with `**` are also turned into. */
module Glob {
  import opened Wrappers

  /** `Bracket` is the text between the brackets of a character class. */
  datatype CharSet = AnyChar | NotNewline | NotSlash | Just(c: char) | Bracket(body: string)

  datatype Token = One(chars: CharSet) | Many(chars: CharSet)

  /** What the host's pattern library takes a class body to mean. */
  type Classes = (string, char) -> bool

  predicate InSet(cs: CharSet, c: char, classes: Classes) {
    match cs
    case AnyChar => true
    case NotNewline => c != '\n'
    case NotSlash => c != '/'
    case Just(d) => c == d
    case Bracket(body) => classes(body, c)
  }

  // ----- The backtracking matcher and what it means ---------------------------------------

  predicate Match(toks: seq<Token>, s: string, classes: Classes)
    decreases |toks| + |s|
  {
    if toks == [] then s == []
    else match toks[0]
      case One(cs) => s != [] && InSet(cs, s[0], classes) && Match(toks[1..], s[1..], classes)
      case Many(cs) =>
        Match(toks[1..], s, classes) || (s != [] && InSet(cs, s[0], classes) && Match(toks, s[1..], classes))
  }

  ghost predicate Fits(t: Token, part: string, classes: Classes) {
    && (t.One? ==> |part| == 1)
    && forall c :: c in part ==> InSet(t.chars, c, classes)
  }

  ghost function Flat(parts: seq<string>): string {
    if parts == [] then "" else parts[0] + Flat(parts[1..])
  }

  /** `parts` cuts a string into one piece per token, each of which the token allows. */
  ghost predicate Spells(toks: seq<Token>, parts: seq<string>, classes: Classes) {
    |parts| == |toks| && forall i :: 0 <= i < |toks| ==> Fits(toks[i], parts[i], classes)
  }

  ghost predicate Denotes(toks: seq<Token>, s: string, classes: Classes) {
    exists parts :: Spells(toks, parts, classes) && Flat(parts) == s
  }

  lemma {:induction false} MatchIsSound(toks: seq<Token>, s: string, classes: Classes) returns (parts: seq<string>)
    requires Match(toks, s, classes)
    ensures Spells(toks, parts, classes) && Flat(parts) == s
    decreases |toks| + |s|
  {
    if toks == [] {
      parts := [];
    } else {
      var t := toks[0];
      if t.Many? && s != [] && InSet(t.chars, s[0], classes) && Match(toks, s[1..], classes) {
        var rest := MatchIsSound(toks, s[1..], classes);
        parts := [[s[0]] + rest[0]] + rest[1..];
        assert Flat(parts) == [s[0]] + rest[0] + Flat(rest[1..]);
        assert Flat(rest) == rest[0] + Flat(rest[1..]);
      } else {
        var n := if t.One? then 1 else 0;
        var rest := MatchIsSound(toks[1..], s[n..], classes);
        parts := [s[..n]] + rest;
        assert parts[1..] == rest;
        forall i | 0 <= i < |toks| ensures Fits(toks[i], parts[i], classes) {
          if i > 0 {
            assert Fits(toks[1..][i - 1], rest[i - 1], classes);
          }
        }
      }
    }
  }

  lemma {:induction false} MatchIsComplete(toks: seq<Token>, parts: seq<string>, classes: Classes)
    requires Spells(toks, parts, classes)
    ensures Match(toks, Flat(parts), classes)
    decreases |toks| + |Flat(parts)|
  {
    if toks != [] {
      var t, s := toks[0], Flat(parts);
      assert s == parts[0] + Flat(parts[1..]);
      assert Fits(t, parts[0], classes);
      if t.Many? && parts[0] != [] {
        var shorter := [parts[0][1..]] + parts[1..];
        assert Spells(toks, shorter, classes) by {
          assert forall c :: c in parts[0][1..] ==> c in parts[0];
        }
        assert shorter[1..] == parts[1..];
        assert Flat(shorter) == s[1..];
        assert parts[0][0] in parts[0];
        MatchIsComplete(toks, shorter, classes);
      } else {
        assert Spells(toks[1..], parts[1..], classes) by {
          forall i | 0 <= i < |toks| - 1 ensures Fits(toks[1..][i], parts[1..][i], classes) {
            assert Fits(toks[i + 1], parts[i + 1], classes);
          }
        }
        MatchIsComplete(toks[1..], parts[1..], classes);
        if t.One? {
          assert parts[0][0] in parts[0];
          assert s[1..] == Flat(parts[1..]);
        } else {
          assert s == Flat(parts[1..]);
        }
      }
    }
  }

  /** The matcher accepts exactly the strings the tokens denote. */
  lemma MatchIffDenotes(toks: seq<Token>, s: string, classes: Classes)
    ensures Match(toks, s, classes) <==> Denotes(toks, s, classes)
  {
    if Match(toks, s, classes) {
      var parts := MatchIsSound(toks, s, classes);
    }
    if parts :| Spells(toks, parts, classes) && Flat(parts) == s {
      MatchIsComplete(toks, parts, classes);
    }
  }

  // ----- Shell patterns -----------------------------------------------------------------------

  /** The first position of `c` in `s` at or after `from`. */
  function Find(s: string, c: char, from: nat): (r: Option<nat>)
    requires from <= |s|
    ensures r.Some? ==> from <= r.value < |s| && s[r.value] == c
    decreases |s| - from
  {
    if from == |s| then None
    else if s[from] == c then Some(from)
    else Find(s, c, from + 1)
  }

  /** Where the class that opens `pat` closes: a `]` right after the opening, or after
      a leading `!`, does not close it. */
  function ClassEnd(pat: string): (r: Option<nat>)
    requires pat != [] && pat[0] == '['
    ensures r.Some? ==> 1 < r.value < |pat|
  {
    var i := if 1 < |pat| && pat[1] == '!' then 2 else 1;
    var j := if i < |pat| && pat[i] == ']' then i + 1 else i;
    Find(pat, ']', j)
  }

  function ShellTokens(pat: string): seq<Token>
    decreases |pat|
  {
    if pat == [] then []
    else if pat[0] == '*' then [Many(AnyChar)] + ShellTokens(pat[1..])
    else if pat[0] == '?' then [One(AnyChar)] + ShellTokens(pat[1..])
    else if pat[0] == '[' && ClassEnd(pat).Some? then
      var j := ClassEnd(pat).value;
      [One(Bracket(pat[1..j]))] + ShellTokens(pat[j + 1..])
    else [One(Just(pat[0]))] + ShellTokens(pat[1..])
  }

  predicate Shell(name: string, pat: string, classes: Classes) {
    Match(ShellTokens(pat), name, classes)
  }

  predicate HasClass(pat: string) {
    exists i :: 0 <= i < |ShellTokens(pat)| && ShellTokens(pat)[i].chars.Bracket?
  }

  // ----- The regular expression made from a pattern --------------------------------------------

  function RegexTokens(pat: string): seq<Token> {
    if pat == [] then []
    else if |pat| >= 2 && pat[0] == '*' && pat[1] == '*' then [Many(NotNewline)] + RegexTokens(pat[2..])
    else if pat[0] == '*' then [Many(NotSlash)] + RegexTokens(pat[1..])
    else [One(Just(pat[0]))] + RegexTokens(pat[1..])
  }

  const SPECIAL := "()[]{}?*+-|^$\\.&~# \t\n\r"

  /** `\v` and `\f` are escaped as well. */
  predicate Special(c: char) {
    c in SPECIAL || c == 11 as char || c == 12 as char
  }

  function EscapeChar(c: char): string {
    if Special(c) then ['\\', c] else [c]
  }

  /** `re.escape`. */
  function Escape(s: string): string {
    if s == [] then "" else EscapeChar(s[0]) + Escape(s[1..])
  }

  /** `s.replace(old, new)`: left to right, without overlaps. */
  function ReplaceAll(s: string, what: string, with: string): string
    requires what != []
    decreases |s|
  {
    if s == [] then ""
    else if what <= s then with + ReplaceAll(s[|what|..], what, with)
    else [s[0]] + ReplaceAll(s[1..], what, with)
  }

  const STARS := "\\*\\*"
  const STAR := "\\*"

  /** The text of the expression the source compiles. */
  function RegexText(pat: string): string {
    ReplaceAll(ReplaceAll(Escape(pat), STARS, ".*"), STAR, "[^/]*")
  }

  function RenderToken(t: Token): string {
    match t
    case Many(NotNewline) => ".*"
    case Many(_) => "[^/]*"
    case One(Just(c)) => EscapeChar(c)
    case One(_) => "."
  }

  function Render(toks: seq<Token>): string {
    if toks == [] then "" else RenderToken(toks[0]) + Render(toks[1..])
  }

  /** The escaped pattern after the first replacement only. */
  function HalfText(pat: string): string {
    if pat == [] then ""
    else if |pat| >= 2 && pat[0] == '*' && pat[1] == '*' then ".*" + HalfText(pat[2..])
    else EscapeChar(pat[0]) + HalfText(pat[1..])
  }

  /** A star in escaped text always follows its own backslash, so no text begins with one. */
  lemma NoLeadingStar(pat: string)
    ensures Escape(pat) != [] ==> Escape(pat)[0] != '*'
    ensures HalfText(pat) != [] ==> HalfText(pat)[0] != '*'
  {
  }

  /** Escaped text begins with an escaped star only where the pattern has a star. */
  lemma EscapedStar(pat: string)
    requires STAR <= Escape(pat)
    ensures pat != [] && pat[0] == '*' && Escape(pat) == STAR + Escape(pat[1..])
  {
    var s := Escape(pat);
    assert s[0] == '\\' && s[1] == '*';
    assert Special('\\') && Special('*');
    NoLeadingStar(pat[1..]);
  }

  lemma DoubledStar(pat: string)
    requires STARS <= Escape(pat)
    ensures |pat| >= 2 && pat[0] == '*' && pat[1] == '*'
  {
    hide Escape;
    var s := Escape(pat);
    assert s[..2] == STARS[..2] == STAR && s[2..4] == STARS[2..] == STAR;
    EscapedStar(pat);
    assert s[2..] == Escape(pat[1..]);
    assert Escape(pat[1..])[..2] == s[2..4];
    EscapedStar(pat[1..]);
  }

  /** An escaped character that does not begin an occurrence is copied. */
  lemma PassesThrough(c: char, rest: string, what: string, with: string)
    requires what == STARS || what == STAR
    requires rest != [] ==> rest[0] != '*'
    requires !(what <= EscapeChar(c) + rest)
    ensures ReplaceAll(EscapeChar(c) + rest, what, with) == EscapeChar(c) + ReplaceAll(rest, what, with)
  {
    var s := EscapeChar(c) + rest;
    if Special(c) {
      assert s[1..] == [c] + rest && ([c] + rest)[1..] == rest;
      NotHere(c, rest, what);
      assert ReplaceAll([c] + rest, what, with) == [c] + ReplaceAll(rest, what, with);
    } else {
      assert s[1..] == rest;
    }
  }

  lemma NotHere(c: char, rest: string, what: string)
    requires what == STARS || what == STAR
    requires rest != [] ==> rest[0] != '*'
    ensures !(what <= [c] + rest)
  {
    var s := [c] + rest;
    assert what[1] == '*';
    assert |s| > 1 ==> s[1] == rest[0];
  }

  /** The first replacement meets exactly the doubled stars of the pattern. */
  lemma {:induction false} FirstReplacement(pat: string)
    ensures ReplaceAll(Escape(pat), STARS, ".*") == HalfText(pat)
    decreases |pat|
  {
    hide ReplaceAll;
    if pat == [] {
      NothingToReplace(STARS, ".*");
    } else if |pat| >= 2 && pat[0] == '*' && pat[1] == '*' {
      FirstReplacement(pat[2..]);
      assert Escape(pat) == STARS + Escape(pat[2..]) by {
        assert pat[1..][1..] == pat[2..] && Special('*');
      }
      Replaces(Escape(pat[2..]), STARS, ".*");
    } else {
      if STARS <= Escape(pat) {
        DoubledStar(pat);
      }
      NoLeadingStar(pat[1..]);
      FirstReplacement(pat[1..]);
      PassesThrough(pat[0], Escape(pat[1..]), STARS, ".*");
    }
  }

  lemma NothingToReplace(what: string, with: string)
    requires what != []
    ensures ReplaceAll("", what, with) == ""
  {
  }

  lemma Replaces(rest: string, what: string, with: string)
    requires what != []
    ensures ReplaceAll(what + rest, what, with) == with + ReplaceAll(rest, what, with)
  {
    assert (what + rest)[|what|..] == rest;
  }

  /** `.*`, put there by the first replacement, is left alone by the second. */
  lemma SkipsDotStar(rest: string)
    requires rest != [] ==> rest[0] != '*'
    ensures ReplaceAll(".*" + rest, STAR, "[^/]*") == ".*" + ReplaceAll(rest, STAR, "[^/]*")
  {
    var s := ".*" + rest;
    assert s[0] == '.' && STAR[0] != '.';
    assert s[1..] == ['*'] + rest && (['*'] + rest)[1..] == rest;
    NotHere('*', rest, STAR);
    assert ReplaceAll(['*'] + rest, STAR, "[^/]*") == ['*'] + ReplaceAll(rest, STAR, "[^/]*");
    assert ['.'] + (['*'] + ReplaceAll(rest, STAR, "[^/]*")) == ".*" + ReplaceAll(rest, STAR, "[^/]*");
  }

  /** The second replacement turns the single stars that are left. */
  lemma {:induction false} SecondReplacement(pat: string)
    ensures ReplaceAll(HalfText(pat), STAR, "[^/]*") == Render(RegexTokens(pat))
    decreases |pat|
  {
    hide ReplaceAll;
    if pat == [] {
      NothingToReplace(STAR, "[^/]*");
    } else if |pat| >= 2 && pat[0] == '*' && pat[1] == '*' {
      SecondReplacement(pat[2..]);
      NoLeadingStar(pat[2..]);
      SkipsDotStar(HalfText(pat[2..]));
      RenderCons(Many(NotNewline), RegexTokens(pat[2..]));
    } else {
      SecondReplacement(pat[1..]);
      NoLeadingStar(pat[1..]);
      var rest := HalfText(pat[1..]);
      if pat[0] == '*' {
        assert Special('*') && EscapeChar('*') == STAR;
        Replaces(rest, STAR, "[^/]*");
        RenderCons(Many(NotSlash), RegexTokens(pat[1..]));
      } else {
        NoStar(pat[0], rest);
        PassesThrough(pat[0], rest, STAR, "[^/]*");
        RenderCons(One(Just(pat[0])), RegexTokens(pat[1..]));
      }
    }
  }

  lemma NoStar(c: char, rest: string)
    requires c != '*'
    requires rest != [] ==> rest[0] != '*'
    ensures !(STAR <= EscapeChar(c) + rest)
  {
    var s := EscapeChar(c) + rest;
    assert Special('\\');
    assert if Special(c) then s[1] == c else s[0] == c;
  }

  lemma RenderCons(t: Token, toks: seq<Token>)
    ensures Render([t] + toks) == RenderToken(t) + Render(toks)
  {
    assert ([t] + toks)[1..] == toks;
  }

  /** Escaping and the two textual replacements yield exactly the text of the token
      sequence: doubled stars, single stars and literal characters never interfere. */
  lemma RegexTextIsRendered(pat: string)
    ensures RegexText(pat) == Render(RegexTokens(pat))
  {
    FirstReplacement(pat);
    SecondReplacement(pat);
  }
}
