/**
 Removing the version from an application id with the regular expression `(.*)_(.*)_(.*)`.

 The matcher below backtracks as section 15.10.2 of ECMA-262, 3rd edition, prescribes: a greedy
 star tries its longest choice first, each choice is followed by the rest of the pattern, and
 the first success wins. `regex_match` accepts only if the pattern uses up the whole string.
 */
module AppIdFormatting {
  import opened TrustTypes

  /** The pieces of the pattern: a captured `.*`, or one literal character. */
  datatype Piece = AnyStar | Literal(c: char)

  const PATTERN := [AnyStar, Literal('_'), AnyStar, Literal('_'), AnyStar]

  /** `.` matches everything else. */
  predicate LineTerminator(c: char) {
    c == '\n' || c == '\r'
  }

  /** How far a star starting at the front can reach. */
  function DotRun(s: string): (n: nat)
    ensures n <= |s|
    ensures forall i :: 0 <= i < n ==> !LineTerminator(s[i])
    ensures n < |s| ==> LineTerminator(s[n])
  {
    if s == "" || LineTerminator(s[0]) then 0 else 1 + DotRun(s[1..])
  }

  /** The captures of the highest-priority match of the whole string. */
  function Match(pattern: seq<Piece>, s: string): Option<seq<string>>
    decreases |pattern|, 0
  {
    if pattern == [] then (if s == "" then Some([]) else None)
    else match pattern[0]
      case Literal(c) => if s != "" && s[0] == c then Match(pattern[1..], s[1..]) else None
      case AnyStar => MatchStar(pattern[1..], s, DotRun(s))
  }

  /** A star that may take up to `n` characters, longest first. */
  function MatchStar(rest: seq<Piece>, s: string, n: nat): Option<seq<string>>
    requires n <= |s|
    decreases |rest|, n + 1
  {
    match Match(rest, s[n..])
    case Some(captures) => Some([s[..n]] + captures)
    case None => if n == 0 then None else MatchStar(rest, s, n - 1)
  }

  /** The rewriting of the id in front of the wrapped agent. */
  function Format(id: string): string {
    match Match(PATTERN, id)
    case Some(captures) => if |captures| < 2 then id else captures[0] + "_" + captures[1]
    case None => id
  }

  /******* The simple cut *******/

  function Underscores(s: string): (n: nat)
    ensures n == 0 <==> '_' !in s
  {
    if s == "" then 0 else (if s[0] == '_' then 1 else 0) + Underscores(s[1..])
  }

  /** Position of the last underscore. */
  function LastUnderscore(s: string): (k: nat)
    requires '_' in s
    ensures k < |s| && s[k] == '_'
    ensures forall i :: k < i < |s| ==> s[i] != '_'
  {
    if s[|s| - 1] == '_' then |s| - 1
    else
      assert s == s[..|s| - 1] + [s[|s| - 1]];
      LastUnderscore(s[..|s| - 1])
  }

  predicate OneLine(s: string) {
    forall i :: 0 <= i < |s| ==> !LineTerminator(s[i])
  }

  predicate Versioned(id: string) {
    OneLine(id) && Underscores(id) >= 2
  }

  function Cut(id: string): string {
    if Versioned(id) then id[..LastUnderscore(id)] else id
  }

  /******* The matcher computes the cut *******/

  lemma {:induction false} UnderscoresAppend(s: string, t: string)
    ensures Underscores(s + t) == Underscores(s) + Underscores(t)
  {
    if s == "" {
      assert s + t == t;
    } else {
      assert (s + t)[1..] == s[1..] + t;
      UnderscoresAppend(s[1..], t);
    }
  }

  /** The star settles on the longest choice that lets the rest match. */
  lemma {:induction false} StarSettles(rest: seq<Piece>, s: string, n: nat, k: nat)
    requires k <= n <= |s| && Match(rest, s[k..]).Some?
    requires forall i :: k < i <= n ==> Match(rest, s[i..]) == None
    ensures MatchStar(rest, s, n) == Some([s[..k]] + Match(rest, s[k..]).value)
  {
    if n > k { StarSettles(rest, s, n - 1, k); }
  }

  lemma {:induction false} StarFails(rest: seq<Piece>, s: string, n: nat)
    requires n <= |s|
    requires forall i :: 0 <= i <= n ==> Match(rest, s[i..]) == None
    ensures MatchStar(rest, s, n) == None
  {
    if n > 0 { StarFails(rest, s, n - 1); }
  }

  lemma MatchAnyStar(rest: seq<Piece>, s: string)
    ensures Match([AnyStar] + rest, s) == MatchStar(rest, s, DotRun(s))
  {
    assert ([AnyStar] + rest)[1..] == rest;
  }

  lemma MatchUnderscore(rest: seq<Piece>, s: string, i: nat)
    requires i <= |s|
    ensures Match([Literal('_')] + rest, s[i..]) == if i < |s| && s[i] == '_' then Match(rest, s[i + 1..]) else None
  {
    assert ([Literal('_')] + rest)[1..] == rest;
    assert i < |s| ==> s[i..][1..] == s[i + 1..];
  }

  /** The suffix patterns, from the right. */
  const ONE_STAR := [AnyStar] + []
  const TWO_STARS := [AnyStar] + ([Literal('_')] + ONE_STAR)

  lemma MatchOneStar(s: string)
    ensures Match(ONE_STAR, s) == if OneLine(s) then Some([s]) else None
  {
    MatchAnyStar([], s);
    var n := DotRun(s);
    if OneLine(s) {
      StarSettles([], s, n, n);
      assert s[..n] == s && [s] + [] == [s];
    } else {
      StarFails([], s, n);
    }
  }

  /** At position `i`, the pattern wants an underscore and takes the rest of the line. */
  ghost predicate TakesRest(rest: seq<Piece>, s: string, i: nat)
    requires i <= |s|
  {
    Match(rest, s[i..]) == if i < |s| && s[i] == '_' && OneLine(s[i + 1..]) then Some([s[i + 1..]]) else None
  }

  lemma StarBeforeRest(rest: seq<Piece>, s: string)
    requires forall i :: 0 <= i <= |s| ==> TakesRest(rest, s, i)
    ensures MatchStar(rest, s, DotRun(s))
            == if OneLine(s) && '_' in s
               then Some([s[..LastUnderscore(s)]] + [s[LastUnderscore(s) + 1..]]) else None
  {
    var n := DotRun(s);
    if OneLine(s) && '_' in s {
      var k := LastUnderscore(s);
      assert TakesRest(rest, s, k);
      OneLineSuffix(s, k + 1);
      forall i | k < i <= n ensures Match(rest, s[i..]) == None { assert TakesRest(rest, s, i); }
      StarSettles(rest, s, n, k);
    } else {
      forall i | 0 <= i <= n ensures Match(rest, s[i..]) == None {
        assert TakesRest(rest, s, i);
        LineSplits(s, i);
      }
      StarFails(rest, s, n);
    }
  }

  lemma MatchTwoStars(s: string)
    ensures Match(TWO_STARS, s)
            == if OneLine(s) && '_' in s
               then Some([s[..LastUnderscore(s)]] + [s[LastUnderscore(s) + 1..]]) else None
  {
    var rest := [Literal('_')] + ONE_STAR;
    MatchAnyStar(rest, s);
    forall i | 0 <= i <= |s| ensures TakesRest(rest, s, i) {
      MatchUnderscore(ONE_STAR, s, i);
      if i < |s| { MatchOneStar(s[i + 1..]); }
    }
    StarBeforeRest(rest, s);
  }

  lemma OneLineSuffix(s: string, i: nat)
    requires i <= |s|
    ensures OneLine(s[i..]) <==> forall j :: i <= j < |s| ==> !LineTerminator(s[j])
  {
    var t := s[i..];
    if OneLine(t) {
      forall j | i <= j < |s| ensures !LineTerminator(s[j]) { assert s[j] == t[j - i]; }
    }
  }

  lemma LineSplits(s: string, i: nat)
    ensures i < |s| && i <= DotRun(s) && s[i] == '_' && OneLine(s[i + 1..]) ==> OneLine(s)
  {
    if i < |s| { OneLineSuffix(s, i + 1); }
  }

  /** What the part behind the first star finds at position `i`. */
  lemma MatchBehindFirst(id: string, i: nat)
    requires i <= |id|
    ensures Match([Literal('_')] + TWO_STARS, id[i..]).Some?
            <==> i < |id| && id[i] == '_' && OneLine(id[i + 1..]) && '_' in id[i + 1..]
    ensures Match([Literal('_')] + TWO_STARS, id[i..]).Some? ==>
              var t := id[i + 1..];
              Match([Literal('_')] + TWO_STARS, id[i..]).value
              == [t[..LastUnderscore(t)]] + [t[LastUnderscore(t) + 1..]]
  {
    MatchUnderscore(TWO_STARS, id, i);
    if i < |id| { MatchTwoStars(id[i + 1..]); }
  }

  lemma PatternIsStar(id: string)
    ensures Match(PATTERN, id) == MatchStar([Literal('_')] + TWO_STARS, id, DotRun(id))
  {
    assert PATTERN == [AnyStar] + ([Literal('_')] + TWO_STARS);
    MatchAnyStar([Literal('_')] + TWO_STARS, id);
  }

  lemma LastIsUnique(s: string, k: nat)
    requires k < |s| && s[k] == '_' && forall i :: k < i < |s| ==> s[i] != '_'
    ensures '_' in s && LastUnderscore(s) == k
  {
  }

  lemma LastSplits(s: string)
    requires '_' in s
    ensures Underscores(s[..LastUnderscore(s)]) == Underscores(s) - 1
  {
    UnderscoreSplits(s, LastUnderscore(s));
  }

  /** Position of the last underscore but one. */
  function SecondLast(id: string): (k: nat)
    requires Underscores(id) >= 2
    ensures k < LastUnderscore(id) && id[k] == '_'
    ensures forall j :: k < j < |id| && id[j] == '_' ==> j == LastUnderscore(id)
  {
    LastSplits(id);
    var front := id[..LastUnderscore(id)];
    assert forall j :: 0 <= j < |front| ==> front[j] == id[j];
    LastUnderscore(front)
  }

  lemma LastOfSuffix(s: string, i: nat)
    requires '_' in s && i <= LastUnderscore(s)
    ensures '_' in s[i..] && LastUnderscore(s[i..]) == LastUnderscore(s) - i
  {
    LastIsUnique(s[i..], LastUnderscore(s) - i);
  }

  lemma SliceJoins(s: string, k: nat, last: nat)
    requires k < last <= |s| && s[k] == '_'
    ensures s[..k] + "_" + s[k + 1..][..last - k - 1] == s[..last]
  {
  }

  lemma TailOfSecondLast(id: string)
    requires Versioned(id)
    ensures var tail := id[SecondLast(id) + 1..];
            && '_' in tail && OneLine(tail)
            && id[..SecondLast(id)] + "_" + tail[..LastUnderscore(tail)] == id[..LastUnderscore(id)]
  {
    var k := SecondLast(id);
    LastOfSuffix(id, k + 1);
    SliceJoins(id, k, LastUnderscore(id));
    OneLineSuffix(id, k + 1);
  }

  lemma NothingBehindSecondLast(id: string, i: nat)
    requires Underscores(id) >= 2 && SecondLast(id) < i <= |id|
    ensures Match([Literal('_')] + TWO_STARS, id[i..]) == None
  {
    MatchBehindFirst(id, i);
    if i < |id| && id[i] == '_' {
      assert i == LastUnderscore(id);
      assert '_' !in id[i + 1..];
    }
  }

  /** The first capture ends at the underscore before the last one. */
  lemma MatchVersioned(id: string)
    requires Versioned(id)
    ensures var m := Match(PATTERN, id);
            m.Some? && |m.value| == 3 && m.value[0] + "_" + m.value[1] == id[..LastUnderscore(id)]
  {
    PatternIsStar(id);
    TailOfSecondLast(id);
    MatchBehindFirst(id, SecondLast(id));
    forall i | SecondLast(id) < i <= DotRun(id) ensures Match([Literal('_')] + TWO_STARS, id[i..]) == None {
      NothingBehindSecondLast(id, i);
    }
    StarSettles([Literal('_')] + TWO_STARS, id, DotRun(id), SecondLast(id));
  }

  /** Anything the pattern accepts is one line with two underscores. */
  lemma MatchOnlyVersioned(id: string)
    ensures Match(PATTERN, id).Some? ==> Versioned(id)
  {
    PatternIsStar(id);
    if !Versioned(id) {
      forall i | 0 <= i <= DotRun(id) ensures Match([Literal('_')] + TWO_STARS, id[i..]) == None {
        MatchBehindFirst(id, i);
        LineSplits(id, i);
        if i < |id| && id[i] == '_' { UnderscoreSplits(id, i); }
      }
      StarFails([Literal('_')] + TWO_STARS, id, DotRun(id));
    }
  }

  lemma UnderscoreSplits(id: string, i: nat)
    requires i < |id| && id[i] == '_'
    ensures Underscores(id) == Underscores(id[..i]) + 1 + Underscores(id[i + 1..])
  {
    var front, back := id[..i], id[i + 1..];
    assert id == front + "_" + back;
    UnderscoresAppend(front + "_", back);
    UnderscoresAppend(front, "_");
    assert Underscores("_") == 1;
  }

  /**
   The regular expression cuts an id at its last underscore if the id has two or more
   underscores and no line terminator, and leaves every other id alone.
   */
  lemma FormatIsCut(id: string)
    ensures Format(id) == Cut(id)
  {
    MatchOnlyVersioned(id);
    if Versioned(id) { MatchVersioned(id); }
  }

  /** Rewriting twice is rewriting once exactly for fewer than three underscores or several lines. */
  lemma FormatIdempotentIff(id: string)
    ensures Format(Format(id)) == Format(id) <==> Underscores(id) < 3 || !OneLine(id)
  {
    FormatIsCut(id);
    FormatIsCut(Format(id));
    if Versioned(id) {
      LastSplits(id);
      var cut := Format(id);
      assert OneLine(cut);
      if Underscores(id) >= 3 { assert |Cut(cut)| < |cut|; }
    }
  }

  /** Ids that differ only behind the last underscore are rewritten to the same id. */
  lemma VersionsShareFormat(package: string, v: string, v': string)
    requires '_' in package && OneLine(package) && OneLine(v) && OneLine(v')
    requires '_' !in v && '_' !in v'
    ensures Format(package + "_" + v) == Format(package + "_" + v') == package
  {
    FormatOfVersion(package, v);
    FormatOfVersion(package, v');
  }

  /** Where the parts of a versioned id lie. */
  lemma VersionParts(package: string, v: string)
    requires '_' in package && OneLine(package) && OneLine(v) && '_' !in v
    ensures var id := package + "_" + v;
            && id[|package|] == '_' && id[..|package|] == package && id[|package| + 1..] == v
            && OneLine(id) && (forall i :: |package| < i < |id| ==> id[i] != '_')
  {
    var id := package + "_" + v;
    forall i | |package| < i < |id| ensures id[i] != '_' { assert id[i] == v[i - |package| - 1]; }
  }

  lemma FormatOfVersion(package: string, v: string)
    requires '_' in package && OneLine(package) && OneLine(v) && '_' !in v
    ensures Format(package + "_" + v) == package
  {
    var id := package + "_" + v;
    VersionParts(package, v);
    FormatIsCut(id);
    UnderscoreSplits(id, |package|);
    LastIsUnique(id, |package|);
  }

  lemma OneLineIff(s: string)
    ensures OneLine(s) <==> '\n' !in s && '\r' !in s
  {
  }

  lemma OneLineParts(package: string, v: string)
    requires OneLine(package + "_" + v)
    ensures OneLine(package) && OneLine(v)
  {
    var id := package + "_" + v;
    forall i | 0 <= i < |package| ensures !LineTerminator(package[i]) { assert package[i] == id[i]; }
    forall i | 0 <= i < |v| ensures !LineTerminator(v[i]) { assert v[i] == id[|package| + 1 + i]; }
  }

  /** A rewritten id is its package, an underscore and a version. */
  lemma FormatOnlyParts(id: string)
    requires Format(id) != id
    ensures OneLine(id) && '_' in Format(id)
    ensures exists v :: id == Format(id) + "_" + v && '_' !in v
  {
    FormatIsCut(id);
    LastSplits(id);
    var v := id[LastUnderscore(id) + 1..];
    assert id == Format(id) + "_" + v && '_' !in v;
  }

  /**
   The rewriting in plain terms: an id is rewritten to another one, its package, exactly if it is
   the package, an underscore and a version without underscore, the package has an underscore,
   and neither a newline nor a carriage return occurs.
   */
  lemma FormatIff(id: string, package: string)
    ensures Format(id) == package && package != id
            <==> && '\n' !in id && '\r' !in id && '_' in package
                 && exists v :: id == package + "_" + v && '_' !in v
  {
    OneLineIff(id);
    if Format(id) == package && package != id {
      FormatOnlyParts(id);
    }
    if OneLine(id) && '_' in package && exists v :: id == package + "_" + v && '_' !in v {
      var v :| id == package + "_" + v && '_' !in v;
      OneLineParts(package, v);
      FormatOfVersion(package, v);
      assert |id| > |package|;
    }
  }

  lemma FormatKeepsNames(id: string)
    ensures Format(id) == "" <==> id == ""
  {
    FormatIsCut(id);
    if Versioned(id) { LastSplits(id); }
  }
}
