/** Path globs: translation to a regular expression, and a second matcher built on fnmatch. */
module Globs {
  import opened Braces
  import BraceLaws
  import BraceTrees

  /** The pieces of the generated expression: (?:.*\/)?  .*  [^/]*  [^/]  and an escaped character. */
  datatype Piece = Dirs | Deep | Star | One | Letter(letter: char)

  /** What one piece matches on its own; the dot does not match a newline. */
  predicate Fits(piece: Piece, s: string) {
    match piece
    case Dirs => s == "" || (s[|s| - 1] == '/' && '\n' !in s[..|s| - 1])
    case Deep => '\n' !in s
    case Star => '/' !in s
    case One => |s| == 1 && s[0] != '/'
    case Letter(c) => s == [c]
  }

  /** The pieces, one after the other, match all of s. */
  predicate Accepts(pieces: seq<Piece>, s: string)
    decreases |pieces|, 1
  {
    if pieces == [] then s == "" else exists k | 0 <= k <= |s| :: Cuts(pieces, s, k)
  }

  predicate Cuts(pieces: seq<Piece>, s: string, k: nat)
    requires pieces != [] && k <= |s|
    decreases |pieces|, 0
  {
    Fits(pieces[0], s[..k]) && Accepts(pieces[1..], s[k..])
  }

  /** ^...$ also matches in front of one final newline. */
  predicate RegexMatches(pieces: seq<Piece>, path: string) {
    || Accepts(pieces, path)
    || (path != "" && path[|path| - 1] == '\n' && Accepts(pieces, path[..|path| - 1]))
  }

  predicate DoubleStarAt(glob: string, i: nat) { i + 1 < |glob| && glob[i] == '*' && glob[i + 1] == '*' }

  /** The longest token at position i of a glob: its piece and its length. */
  function TokenAt(glob: string, i: nat): (r: (Piece, nat))
    requires i < |glob|
    ensures 1 <= r.1 <= |glob| - i
  {
    if DoubleStarAt(glob, i) && i + 2 < |glob| && glob[i + 2] == '/' then (Dirs, 3)
    else if DoubleStarAt(glob, i) then (Deep, 2)
    else if glob[i] == '*' then (Star, 1)
    else if glob[i] == '?' then (One, 1)
    else (Letter(glob[i]), 1)
  }

  function Token(glob: string): (r: (Piece, nat))
    requires glob != ""
    ensures 1 <= r.1 <= |glob|
  {
    TokenAt(glob, 0)
  }

  function Compile(glob: string): seq<Piece> {
    if glob == "" then [] else var (piece, n) := Token(glob); [piece] + Compile(glob[n..])
  }

  method GlobToRegex(glob: string) returns (pieces: seq<Piece>)
    ensures pieces == Compile(glob)
  {
    pieces := [];
    var index := 0;
    while index < |glob|
      invariant index <= |glob|
      invariant pieces + Compile(glob[index..]) == Compile(glob)
    {
      var piece, width;
      if DoubleStarAt(glob, index) && index + 2 < |glob| && glob[index + 2] == '/' {
        piece, width := Dirs, 3;
      } else if DoubleStarAt(glob, index) {
        piece, width := Deep, 2;
      } else if glob[index] == '*' {
        piece, width := Star, 1;
      } else if glob[index] == '?' {
        piece, width := One, 1;
      } else {
        piece, width := Letter(glob[index]), 1;
      }
      CompileFrom(glob, index);
      Regroup(pieces, [piece], Compile(glob[index + width..]));
      pieces := pieces + [piece];
      index := index + width;
    }
    assert pieces + Compile("") == pieces;
  }

  lemma Regroup<T>(a: seq<T>, b: seq<T>, c: seq<T>)
    ensures a + (b + c) == a + b + c
  {
  }

  lemma CompileFrom(glob: string, index: nat)
    requires index < |glob|
    ensures var (piece, width) := TokenAt(glob, index);
            Compile(glob[index..]) == [piece] + Compile(glob[index + width..])
  {
    var rest := glob[index..];
    assert Token(rest) == TokenAt(glob, index);
    assert rest[Token(rest).1..] == glob[index + Token(rest).1..];
  }

  // ---------- the second matcher ----------

  function Slashes(s: string): nat {
    if s == "" then 0 else (if s[0] == '/' then 1 else 0) + Slashes(s[1..])
  }

  /** fnmatch for patterns without a bracket class: here a star also crosses separators. */
  predicate FnMatch(pattern: string, s: string)
    requires '[' !in pattern
  {
    if pattern == "" then s == ""
    else if pattern[0] == '*' then exists k | 0 <= k <= |s| :: FnMatch(pattern[1..], s[k..])
    else s != "" && (pattern[0] == '?' || pattern[0] == s[0]) && FnMatch(pattern[1..], s[1..])
  }

  predicate SingleLevel(path: string, pattern: string)
    requires '[' !in pattern
  {
    Slashes(path) == Slashes(pattern) && FnMatch(pattern, path)
  }

  ghost predicate NoDoubleStar(glob: string) {
    forall i: nat :: !DoubleStarAt(glob, i)
  }

  lemma {:induction false} SlashesAppend(a: string, b: string)
    ensures Slashes(a + b) == Slashes(a) + Slashes(b)
  {
    if a == "" {
      assert a + b == b;
    } else {
      assert (a + b)[1..] == a[1..] + b;
      SlashesAppend(a[1..], b);
    }
  }

  lemma SlashesCut(s: string, k: nat)
    requires k <= |s|
    ensures Slashes(s) == Slashes(s[..k]) + Slashes(s[k..])
  {
    SlashesAppend(s[..k], s[k..]);
    assert s == s[..k] + s[k..];
  }

  lemma {:induction false} NoSlashes(s: string)
    ensures Slashes(s) == 0 <==> '/' !in s
  {
    if s != "" {
      NoSlashes(s[1..]);
      assert s == [s[0]] + s[1..];
    }
  }

  lemma SimpleToken(glob: string)
    requires glob != "" && NoDoubleStar(glob)
    ensures Token(glob) == (if glob[0] == '*' then Star else if glob[0] == '?' then One else Letter(glob[0]), 1)
    ensures NoDoubleStar(glob[1..])
  {
    assert !DoubleStarAt(glob, 0);
    forall i: nat ensures !DoubleStarAt(glob[1..], i) {
      assert !DoubleStarAt(glob, i + 1);
    }
  }

  /** A glob without a double star matches only paths with as many separators as itself. */
  lemma {:induction false} AcceptedBySlashes(glob: string, s: string)
    requires NoDoubleStar(glob) && Accepts(Compile(glob), s)
    ensures Slashes(s) == Slashes(glob)
  {
    if glob != "" {
      SimpleToken(glob);
      var k :| 0 <= k <= |s| && Cuts(Compile(glob), s, k);
      assert Compile(glob)[1..] == Compile(glob[1..]);
      AcceptedBySlashes(glob[1..], s[k..]);
      SlashesCut(s, k);
      NoSlashes(s[..k]);
    }
  }

  lemma OwnSlashCount(glob: string, path: string)
    requires NoDoubleStar(glob) && RegexMatches(Compile(glob), path)
    ensures Slashes(path) == Slashes(glob)
  {
    if Accepts(Compile(glob), path) {
      AcceptedBySlashes(glob, path);
    } else {
      AcceptedBySlashes(glob, path[..|path| - 1]);
      SlashesCut(path, |path| - 1);
    }
  }

  lemma {:induction false} AcceptedIsFnMatch(glob: string, s: string)
    requires NoDoubleStar(glob) && '[' !in glob && Accepts(Compile(glob), s)
    ensures FnMatch(glob, s)
  {
    if glob != "" {
      SimpleToken(glob);
      var k :| 0 <= k <= |s| && Cuts(Compile(glob), s, k);
      assert Compile(glob)[1..] == Compile(glob[1..]);
      AcceptedIsFnMatch(glob[1..], s[k..]);
    }
  }

  /** fnmatch can only add separators: each one the pattern names is there. */
  lemma {:induction false} FnMatchHasSlashes(glob: string, s: string)
    requires '[' !in glob && FnMatch(glob, s)
    ensures Slashes(s) >= Slashes(glob)
  {
    if glob != "" {
      if glob[0] == '*' {
        var k :| 0 <= k <= |s| && FnMatch(glob[1..], s[k..]);
        FnMatchHasSlashes(glob[1..], s[k..]);
        SlashesCut(s, k);
      } else {
        FnMatchHasSlashes(glob[1..], s[1..]);
      }
    }
  }

  /** With no separator to spare, no star and no question mark can have eaten one. */
  lemma {:induction false} FnMatchIsAccepted(glob: string, s: string)
    requires NoDoubleStar(glob) && '[' !in glob && FnMatch(glob, s) && Slashes(s) == Slashes(glob)
    ensures Accepts(Compile(glob), s)
  {
    if glob != "" {
      SimpleToken(glob);
      var k := 1;
      if glob[0] == '*' {
        k :| 0 <= k <= |s| && FnMatch(glob[1..], s[k..]);
      }
      FnMatchHasSlashes(glob[1..], s[k..]);
      SlashesCut(s, k);
      NoSlashes(s[..k]);
      FnMatchIsAccepted(glob[1..], s[k..]);
      assert Compile(glob)[1..] == Compile(glob[1..]);
      assert Cuts(Compile(glob), s, k);
    }
  }

  /** The matchers differ on one point only: the expression forgives a final newline. */
  lemma MatchersAgreeUpToNewline(glob: string, path: string)
    requires NoDoubleStar(glob) && '[' !in glob
    ensures RegexMatches(Compile(glob), path) <==>
            || SingleLevel(path, glob)
            || (path != "" && path[|path| - 1] == '\n' && SingleLevel(path[..|path| - 1], glob))
  {
    AcceptedExactly(glob, path);
    if path != "" {
      AcceptedExactly(glob, path[..|path| - 1]);
    }
  }

  lemma AcceptedExactly(glob: string, s: string)
    requires NoDoubleStar(glob) && '[' !in glob
    ensures Accepts(Compile(glob), s) <==> SingleLevel(s, glob)
  {
    if Accepts(Compile(glob), s) {
      AcceptedBySlashes(glob, s);
      AcceptedIsFnMatch(glob, s);
    }
    if SingleLevel(s, glob) {
      FnMatchIsAccepted(glob, s);
    }
  }

  /** On paths without a newline the two matchers accept the same paths. */
  lemma MatchersAgree(glob: string, path: string)
    requires NoDoubleStar(glob) && '[' !in glob && '\n' !in path
    ensures SingleLevel(path, glob) <==> RegexMatches(Compile(glob), path)
  {
    MatchersAgreeUpToNewline(glob, path);
  }

  // ---------- matching a whole pattern against many paths ----------

  predicate EndsInTree(glob: string) { |glob| >= 3 && glob[|glob| - 3..] == "/**" }

  /** A trailing slash and double star also stand for the directory itself. */
  function Candidates(glob: string): seq<string> {
    if EndsInTree(glob) then [glob, glob[..|glob| - 3]] else [glob]
  }

  predicate ExpandedMatches(glob: string, path: string) {
    exists c | c in Candidates(glob) :: RegexMatches(Compile(c), path)
  }

  predicate MatchesAny(glob: string, paths: seq<string>) {
    exists p | p in paths :: RegexMatches(Compile(glob), p)
  }

  predicate ExpandedMatchesAny(glob: string, paths: seq<string>) {
    exists p | p in paths :: ExpandedMatches(glob, p)
  }

  method MatchExpanded(glob: string, paths: seq<string>) returns (found: bool)
    ensures found <==> ExpandedMatchesAny(glob, paths)
  {
    var candidates := [glob];
    if EndsInTree(glob) {
      candidates := candidates + [glob[..|glob| - 3]];
    }
    assert candidates == Candidates(glob);
    for j := 0 to |candidates|
      invariant forall i | 0 <= i < j :: !MatchesAny(candidates[i], paths)
    {
      var compiled := GlobToRegex(candidates[j]);
      if exists p | p in paths :: RegexMatches(compiled, p) {
        return true;
      }
    }
    return false;
  }

  predicate PatternMatches(pattern: string, paths: seq<string>) {
    exists g | g in Expand(pattern) :: ExpandedMatchesAny(g, paths)
  }

  method GlobMatches(pattern: string, paths: seq<string>) returns (found: bool)
    ensures found <==> PatternMatches(pattern, paths)
  {
    var globs := ExpandBraces(pattern);
    for i := 0 to |globs|
      invariant forall k | 0 <= k < i :: !ExpandedMatchesAny(globs[k], paths)
    {
      var hit := MatchExpanded(globs[i], paths);
      if hit {
        SomeMatches(globs, paths, i);
        return true;
      }
    }
    NoneMatches(globs, paths);
    return false;
  }

  lemma NoneMatches(globs: seq<string>, paths: seq<string>)
    requires forall k | 0 <= k < |globs| :: !ExpandedMatchesAny(globs[k], paths)
    ensures !exists g | g in globs :: ExpandedMatchesAny(g, paths)
  {
  }

  lemma SomeMatches(globs: seq<string>, paths: seq<string>, i: nat)
    requires i < |globs| && ExpandedMatchesAny(globs[i], paths)
    ensures exists g | g in globs :: ExpandedMatchesAny(g, paths)
  {
  }

  /** What a balanced pattern matches, said on its tree of alternatives. */
  lemma TreeMatches(tree: BraceTrees.Pat, paths: seq<string>)
    requires BraceTrees.WellFormed(tree, false)
    ensures PatternMatches(BraceTrees.Text(tree), paths) <==>
            exists g | g in BraceTrees.Denote(tree) :: ExpandedMatchesAny(g, paths)
  {
    BraceTrees.ExpandDenotes(tree);
  }

  lemma {:induction false} SomeOption(g: Group, options: seq<string>, bound: nat, paths: seq<string>)
    requires forall o :: o in options ==> Opens(g.head + o + g.tail) < bound
    ensures (exists x | x in ExpandEach(g, options, bound) :: ExpandedMatchesAny(x, paths)) <==>
            exists o | o in options :: PatternMatches(g.head + o + g.tail, paths)
  {
    if options != [] {
      SomeOption(g, options[1..], bound, paths);
      var first := g.head + options[0] + g.tail;
      assert ExpandEach(g, options, bound) == Expand(first) + ExpandEach(g, options[1..], bound);
      assert forall o | o in options :: o == options[0] || o in options[1..];
      assert options[0] in options && forall o | o in options[1..] :: o in options;
    }
  }

  /** A group is a choice: the pattern matches exactly when it matches with one of the options in the group's
      place. */
  lemma GroupIsChoice(g: Group, paths: seq<string>)
    requires '{' !in g.head && BraceLaws.Balanced(g.body)
    ensures PatternMatches(Whole(g), paths) <==>
            exists o | o in Split(g.body, 0) :: PatternMatches(g.head + o + g.tail, paths)
  {
    BraceLaws.GroupIsFound(g);
    OptionsOpenLess(g);
    SomeOption(g, Split(g.body, 0), Opens(Whole(g)), paths);
  }

  /** Before a slash a run of stars is cut as it is at the end, but for a last double star, which takes the
      slash with it. */
  lemma TokenBeforeTree(dir: string)
    requires dir != "" && dir != "**"
    ensures Token(dir + "/**") == Token(dir)
  {
    var s := dir + "/**";
    assert s[0] == dir[0];
    assert |dir| >= 2 ==> s[1] == dir[1];
    assert |dir| >= 3 ==> s[2] == dir[2];
    assert |dir| == 1 ==> s[1] == '/';
    assert |dir| == 2 ==> s[2] == '/';
  }

  lemma CompileStep(a: string, b: string, n: nat)
    requires a != "" && Token(a + b) == Token(a) && n == Token(a).1
    ensures Compile(a + b) == [Token(a).0] + Compile(a[n..] + b)
    ensures Compile(a) == [Token(a).0] + Compile(a[n..])
  {
    assert (a + b)[n..] == a[n..] + b;
  }

  lemma DoubleStarTree()
    ensures Compile("**") == [Deep] && Compile("**" + "/**") == [Dirs, Deep]
  {
    TreePieces();
    var s := "**" + "/**";
    assert Token("**") == (Deep, 2) && "**"[2..] == "";
    assert s == "**/**" && Token(s) == (Dirs, 3) && s[3..] == "**";
  }

  /** Either the tree suffix is translated on its own, or the directory ends in a double star. */
  lemma {:induction false} TreeCompiles(dir: string) returns (apart: bool, front: seq<Piece>)
    ensures if apart then Compile(dir + "/**") == Compile(dir) + Compile("/**")
            else Compile(dir) == front + [Deep] && Compile(dir + "/**") == front + [Dirs, Deep]
  {
    if dir == "" {
      assert dir + "/**" == "/**";
      apart, front := true, [];
    } else if dir == "**" {
      DoubleStarTree();
      apart, front := false, [];
    } else {
      var n := Token(dir).1;
      TokenBeforeTree(dir);
      CompileStep(dir, "/**", n);
      var rest;
      apart, rest := TreeCompiles(dir[n..]);
      front := [Token(dir).0] + rest;
      if apart {
        Regroup([Token(dir).0], Compile(dir[n..]), Compile("/**"));
      } else {
        Regroup([Token(dir).0], rest, [Deep]);
        Regroup([Token(dir).0], rest, [Dirs, Deep]);
      }
    }
  }

  lemma CutTwice(s: string, j: nat, k: nat)
    requires j <= k <= |s|
    ensures s[..k][..j] == s[..j] && s[..k][j..] == s[j..][..k - j] && s[j..][k - j..] == s[k..]
  {
  }

  lemma FirstPiece(pieces: seq<Piece>, s: string) returns (j: nat)
    requires pieces != [] && Accepts(pieces, s)
    ensures j <= |s| && Fits(pieces[0], s[..j]) && Accepts(pieces[1..], s[j..])
  {
    j :| 0 <= j <= |s| && Cuts(pieces, s, j);
  }

  lemma {:induction false} AcceptsAppend(ps: seq<Piece>, qs: seq<Piece>, s: string, k: nat)
    requires k <= |s| && Accepts(ps, s[..k]) && Accepts(qs, s[k..])
    ensures Accepts(ps + qs, s)
  {
    if ps == [] {
      assert ps + qs == qs && s[k..] == s;
    } else {
      var j := FirstPiece(ps, s[..k]);
      assert Accepts(ps[1..] + qs, s[j..]) by {
        CutTwice(s, j, k);
        AcceptsAppend(ps[1..], qs, s[j..], k - j);
      }
      assert Fits(ps[0], s[..j]) by { CutTwice(s, j, k); }
      assert ps + qs == [ps[0]] + (ps[1..] + qs);
      Prepend(ps[0], ps[1..] + qs, s, j);
    }
  }

  lemma Prepend(piece: Piece, rest: seq<Piece>, s: string, j: nat)
    requires j <= |s| && Fits(piece, s[..j]) && Accepts(rest, s[j..])
    ensures Accepts([piece] + rest, s)
  {
    assert ([piece] + rest)[1..] == rest;
    assert Cuts([piece] + rest, s, j);
  }

  lemma ExtendCut(ps: seq<Piece>, s: string, j: nat, i: nat)
    requires j + i <= |s| && ps != []
    requires Fits(ps[0], s[..j]) && Accepts(ps[1..], s[j..][..i])
    ensures Accepts(ps, s[..j + i])
    ensures s[j..][i..] == s[j + i..]
  {
    CutTwice(s, j, j + i);
    assert Cuts(ps, s[..j + i], j);
  }

  lemma FirstOfAppend(ps: seq<Piece>, qs: seq<Piece>, s: string) returns (j: nat)
    requires ps != [] && Accepts(ps + qs, s)
    ensures j <= |s| && Fits(ps[0], s[..j]) && Accepts(ps[1..] + qs, s[j..])
  {
    j := FirstPiece(ps + qs, s);
    assert (ps + qs)[1..] == ps[1..] + qs;
  }

  lemma {:induction false} AcceptsCut(ps: seq<Piece>, qs: seq<Piece>, s: string) returns (k: nat)
    requires Accepts(ps + qs, s)
    ensures k <= |s| && Accepts(ps, s[..k]) && Accepts(qs, s[k..])
    decreases |ps|, 1
  {
    if ps == [] {
      assert ps + qs == qs && s[0..] == s;
      k := 0;
    } else {
      var j := FirstOfAppend(ps, qs, s);
      k := AcceptsCutMore(ps, qs, s, j);
    }
  }

  lemma {:induction false} AcceptsCutMore(ps: seq<Piece>, qs: seq<Piece>, s: string, j: nat) returns (k: nat)
    requires ps != [] && j <= |s| && Fits(ps[0], s[..j]) && Accepts(ps[1..] + qs, s[j..])
    ensures k <= |s| && Accepts(ps, s[..k]) && Accepts(qs, s[k..])
    decreases |ps|, 0
  {
    var i := AcceptsCut(ps[1..], qs, s[j..]);
    ExtendCut(ps, s, j, i);
    k := j + i;
  }

  lemma TreePieces()
    ensures Compile("/**") == [Letter('/')] + [Deep]
  {
    assert Token("**") == (Deep, 2) && "**"[2..] == "";
    assert "/**"[1..] == "**" && "/**"[0] == '/';
  }

  lemma OnePiece(piece: Piece, s: string)
    ensures Accepts([piece], s) <==> Fits(piece, s)
  {
    assert [piece][1..] == [];
    assert s[..|s|] == s && s[|s|..] == "";
    if Fits(piece, s) {
      assert Cuts([piece], s, |s|);
    }
    if Accepts([piece], s) {
      var k := FirstPiece([piece], s);
      assert s[..k] == s;
    }
  }

  lemma TreeSuffix(s: string)
    requires '\n' !in s
    ensures Accepts(Compile("/**"), s) <==> s != "" && s[0] == '/'
  {
    TreePieces();
    if s != "" && s[0] == '/' {
      OnePiece(Deep, s[1..]);
      assert s[..1] == "/";
      Prepend(Letter('/'), [Deep], s, 1);
    }
    if Accepts(Compile("/**"), s) {
      var k := FirstPiece([Letter('/')] + [Deep], s);
      assert s[..k] == "/" && s[0] == s[..k][0];
    }
  }

  lemma BelowApart(dir: string, path: string)
    requires Compile(dir + "/**") == Compile(dir) + Compile("/**") && '\n' !in path
    ensures Accepts(Compile(dir + "/**"), path) <==>
            exists k | 0 <= k < |path| && path[k] == '/' :: Accepts(Compile(dir), path[..k])
  {
    if Accepts(Compile(dir + "/**"), path) {
      var k := AcceptsCut(Compile(dir), Compile("/**"), path);
      TreeSuffix(path[k..]);
    }
    forall k | 0 <= k < |path| && path[k] == '/' && Accepts(Compile(dir), path[..k])
      ensures Accepts(Compile(dir + "/**"), path)
    {
      TreeSuffix(path[k..]);
      AcceptsAppend(Compile(dir), Compile("/**"), path, k);
    }
  }

  /** Behind a double star the tree suffix adds nothing: any tail without a newline is already matched. */
  lemma AnyTail(front: seq<Piece>, tail: seq<Piece>, path: string)
    requires (tail == [Deep] || tail == [Dirs, Deep]) && '\n' !in path
    ensures Accepts(front + tail, path) <==> exists k | 0 <= k <= |path| :: Accepts(front, path[..k])
  {
    if Accepts(front + tail, path) {
      var k := AcceptsCut(front, tail, path);
      assert Accepts(front, path[..k]);
    }
    forall k | 0 <= k <= |path| && Accepts(front, path[..k]) ensures Accepts(front + tail, path) {
      var rest := path[k..];
      OnePiece(Deep, rest);
      assert rest[..0] == "" && rest[0..] == rest;
      Prepend(Dirs, [Deep], rest, 0);
      assert [Dirs] + [Deep] == [Dirs, Deep];
      AcceptsAppend(front, tail, path, k);
    }
  }

  lemma DeepPrefix(front: seq<Piece>, path: string, k: nat)
    requires k <= |path| && '\n' !in path && Accepts(front + [Deep], path[..k])
    ensures Accepts(front + [Deep], path)
  {
    AnyTail(front, [Deep], path[..k]);
    AnyTail(front, [Deep], path);
    var j :| 0 <= j <= k && Accepts(front, path[..k][..j]);
    assert path[..k][..j] == path[..j];
  }

  /** What a directory and the tree below it match, whatever stars the directory ends in. */
  lemma DirectoryOrBelow(dir: string, path: string)
    requires '\n' !in path
    ensures Accepts(Compile(dir + "/**"), path) || Accepts(Compile(dir), path) <==>
            || Accepts(Compile(dir), path)
            || exists k | 0 <= k < |path| && path[k] == '/' :: Accepts(Compile(dir), path[..k])
  {
    var apart, front := TreeCompiles(dir);
    if apart {
      BelowApart(dir, path);
    } else {
      AnyTail(front, [Deep], path);
      AnyTail(front, [Dirs, Deep], path);
      forall k | 0 <= k < |path| && Accepts(Compile(dir), path[..k]) ensures Accepts(Compile(dir), path) {
        DeepPrefix(front, path, k);
      }
    }
  }

  lemma NoFinalNewline(glob: string, path: string)
    requires '\n' !in path
    ensures RegexMatches(Compile(glob), path) <==> Accepts(Compile(glob), path)
  {
  }

  lemma TreeCandidates(dir: string, path: string)
    ensures ExpandedMatches(dir + "/**", path) <==>
            RegexMatches(Compile(dir + "/**"), path) || RegexMatches(Compile(dir), path)
  {
    var glob := dir + "/**";
    assert glob[|glob| - 3..] == "/**" && glob[..|glob| - 3] == dir;
    assert Candidates(glob) == [glob, dir];
    forall g | g in [glob, dir] ensures g == glob || g == dir {}
    assert [glob, dir][0] == glob && [glob, dir][1] == dir;
  }

  /** A glob for a tree matches its directory and everything under it, and nothing else. */
  lemma DirectoryAndBelow(dir: string, path: string)
    requires '\n' !in path
    ensures ExpandedMatches(dir + "/**", path) <==>
            || Accepts(Compile(dir), path)
            || exists k | 0 <= k < |path| && path[k] == '/' :: Accepts(Compile(dir), path[..k])
  {
    TreeCandidates(dir, path);
    DirectoryOrBelow(dir, path);
    NoFinalNewline(dir, path);
    NoFinalNewline(dir + "/**", path);
  }

  // ---------- leading double stars ----------

  lemma DirsFits(path: string, k: nat)
    requires '\n' !in path && k <= |path|
    ensures Fits(Dirs, path[..k]) <==> k == 0 || path[k - 1] == '/'
  {
  }

  /** A leading double star and slash stand for any directory, the top one included. */
  lemma AnyDirectory(rest: string, path: string)
    requires '\n' !in path
    ensures Accepts(Compile("**/" + rest), path) <==>
            || Accepts(Compile(rest), path)
            || exists k | 0 <= k < |path| && path[k] == '/' :: Accepts(Compile(rest), path[k + 1..])
  {
    var glob := "**/" + rest;
    assert Token(glob) == (Dirs, 3) && glob[3..] == rest;
    if Accepts(Compile(glob), path) {
      var j := FirstPiece([Dirs] + Compile(rest), path);
      DirsFits(path, j);
      assert j == 0 ==> path[j..] == path;
      assert j > 0 ==> path[j - 1] == '/' && path[j - 1 + 1..] == path[j..];
    }
    if Accepts(Compile(rest), path) {
      assert path[0..] == path;
      DirsFits(path, 0);
      Prepend(Dirs, Compile(rest), path, 0);
    }
    forall k | 0 <= k < |path| && path[k] == '/' && Accepts(Compile(rest), path[k + 1..])
      ensures Accepts(Compile(glob), path)
    {
      DirsFits(path, k + 1);
      Prepend(Dirs, Compile(rest), path, k + 1);
    }
  }

  /** Any other leading double star stands for any text. */
  lemma AnyText(rest: string, path: string)
    requires '\n' !in path && (rest == "" || rest[0] != '/')
    ensures Accepts(Compile("**" + rest), path) <==>
            exists k | 0 <= k <= |path| :: Accepts(Compile(rest), path[k..])
  {
    var glob := "**" + rest;
    assert rest != "" ==> glob[2] == rest[0];
    assert Token(glob) == (Deep, 2) && glob[2..] == rest;
    if Accepts(Compile(glob), path) {
      var j := FirstPiece([Deep] + Compile(rest), path);
      assert Accepts(Compile(rest), path[j..]);
    }
    forall k | 0 <= k <= |path| && Accepts(Compile(rest), path[k..]) ensures Accepts(Compile(glob), path) {
      Prepend(Deep, Compile(rest), path, k);
    }
  }
}
