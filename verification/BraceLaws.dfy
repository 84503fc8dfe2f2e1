/** Which braces pair up, and what one step of the expansion keeps. */
module BraceLaws {
  import opened Options
  import opened Braces

  /** The depth after reading s, or nothing when a '}' comes with no group open. */
  function Walk(s: string, depth: nat): Option<nat> {
    if s == "" then Some(depth)
    else if depth + Delta(s[0]) < 0 then None
    else Walk(s[1..], depth + Delta(s[0]))
  }

  predicate Balanced(s: string) { Walk(s, 0) == Some(0) }

  /** Every comma of s lies inside a group. */
  predicate NoTopComma(s: string, depth: int) {
    s == "" || (!(s[0] == ',' && depth == 0) && NoTopComma(s[1..], depth + Delta(s[0])))
  }

  /** Text that may stand between two commas of a group. */
  predicate IsOption(s: string) { Balanced(s) && NoTopComma(s, 0) }

  predicate NoBraces(s: string) { '{' !in s && '}' !in s }

  function Join(parts: seq<string>): string
    requires parts != []
  {
    if |parts| == 1 then parts[0] else parts[0] + "," + Join(parts[1..])
  }

  // ---------- depth ----------

  function Then(a: Option<nat>, b: string): Option<nat> {
    match a
    case None => None
    case Some(d) => Walk(b, d)
  }

  lemma {:induction false} WalkAppend(a: string, b: string, depth: nat)
    ensures Walk(a + b, depth) == Then(Walk(a, depth), b)
  {
    if a == "" {
      assert a + b == b;
    } else {
      assert (a + b)[1..] == a[1..] + b;
      if depth + Delta(a[0]) >= 0 {
        WalkAppend(a[1..], b, depth + Delta(a[0]));
      }
    }
  }

  lemma {:induction false} WalkDeeper(s: string, depth: nat, more: nat)
    requires Walk(s, depth).Some?
    ensures Walk(s, depth + more) == Some(Walk(s, depth).value + more)
  {
    if s != "" {
      WalkDeeper(s[1..], depth + Delta(s[0]), more);
    }
  }

  /** Balanced text with no opening brace has no closing one either. */
  lemma {:induction false} FlatIsBalanced(s: string)
    requires '{' !in s
    ensures Balanced(s) <==> NoBraces(s)
  {
    if s != "" {
      assert s == [s[0]] + s[1..];
      FlatIsBalanced(s[1..]);
    }
  }

  // ---------- the first group ----------

  lemma {:induction false} ClosingCuts(s: string, i: nat, depth: nat)
    requires i <= |s| && depth >= 1 && Closing(s, i, depth).Some?
    ensures Walk(s[i..Closing(s, i, depth).value], depth - 1) == Some(0)
    decreases |s| - i
  {
    var j := Closing(s, i, depth).value;
    if i != j {
      assert s[i..j] == [s[i]] + s[i + 1..j];
      ClosingCuts(s, i + 1, depth + Delta(s[i]));
    }
  }

  lemma {:induction false} ClosingFinds(s: string, i: nat, j: nat, depth: nat)
    requires i <= j < |s| && depth >= 1 && s[j] == '}'
    requires Walk(s[i..j], depth - 1) == Some(0)
    ensures Closing(s, i, depth) == Some(j)
    decreases j - i
  {
    if i < j {
      assert s[i..j][1..] == s[i + 1..j];
      ClosingFinds(s, i + 1, j, depth + Delta(s[i]));
    }
  }

  lemma {:induction false} FirstOpenIs(s: string, i: nat)
    requires i < |s| && s[i] == '{' && forall k | 0 <= k < i :: s[k] != '{'
    ensures FirstOpen(s) == Some(i)
  {
    if i > 0 {
      FirstOpenIs(s[1..], i - 1);
    }
  }

  lemma GroupIsBalanced(s: string)
    requires FirstGroup(s).Some?
    ensures Balanced(FirstGroup(s).value.body)
  {
    ClosingCuts(s, FirstOpen(s).value + 1, 1);
  }

  /** A group is found exactly where balanced text stands in braces after brace-free text. */
  lemma GroupIsFound(g: Group)
    requires '{' !in g.head && Balanced(g.body)
    ensures FirstGroup(Whole(g)) == Some(g)
  {
    var s := Whole(g);
    var start := |g.head|;
    var end := start + 1 + |g.body|;
    assert s[..start] == g.head && s[start + 1..end] == g.body && s[end + 1..] == g.tail;
    forall k | 0 <= k < start ensures s[k] != '{' {
      assert g.head[k] in g.head;
    }
    FirstOpenIs(s, start);
    ClosingFinds(s, start + 1, end, 1);
  }

  /** A balanced text whose first brace opens a group has that group closed. */
  lemma {:induction false} NeverClosed(s: string, i: nat, depth: nat)
    requires i <= |s| && depth >= 1 && Closing(s, i, depth).None?
    ensures Walk(s[i..], depth).Some? && Walk(s[i..], depth).value > 0
    decreases |s| - i
  {
    if i < |s| {
      assert s[i..][1..] == s[i + 1..];
      NeverClosed(s, i + 1, depth + Delta(s[i]));
    }
  }

  lemma BalancedHasGroup(s: string)
    requires Balanced(s) && '{' in s
    ensures FirstGroup(s).Some?
  {
    var start := FirstOpen(s).value;
    if Closing(s, start + 1, 1).None? {
      NeverClosed(s, start + 1, 1);
      assert s == s[..start] + ("{" + s[start + 1..]);
      WalkAppend(s[..start], "{" + s[start + 1..], 0);
      WalkAppend("{", s[start + 1..], Walk(s[..start], 0).value);
      WalkDeeper(s[start + 1..], 1, Walk(s[..start], 0).value);
    }
  }

  lemma WholeWalks(g: Group, depth: nat)
    requires Balanced(g.body)
    ensures Walk(Whole(g), depth) == Then(Walk(g.head, depth), g.tail)
  {
    assert Whole(g) == g.head + ("{" + (g.body + ("}" + g.tail)));
    WalkAppend(g.head, "{" + (g.body + ("}" + g.tail)), depth);
    if Walk(g.head, depth).Some? {
      var d := Walk(g.head, depth).value;
      WalkAppend("{", g.body + ("}" + g.tail), d);
      WalkAppend(g.body, "}" + g.tail, d + 1);
      WalkDeeper(g.body, 0, d + 1);
      WalkAppend("}", g.tail, d + 1);
    }
  }

  lemma ChoiceWalks(g: Group, option: string, depth: nat)
    requires Balanced(option)
    ensures Walk(g.head + option + g.tail, depth) == Then(Walk(g.head, depth), g.tail)
  {
    assert g.head + option + g.tail == g.head + (option + g.tail);
    WalkAppend(g.head, option + g.tail, depth);
    if Walk(g.head, depth).Some? {
      var d := Walk(g.head, depth).value;
      WalkAppend(option, g.tail, d);
      WalkDeeper(option, 0, d);
    }
  }

  /** Choosing an option neither repairs nor breaks the pairing of the other braces. */
  lemma ChoiceKeepsBalance(s: string, option: string)
    requires FirstGroup(s).Some? && Balanced(option)
    ensures var g := FirstGroup(s).value; Balanced(g.head + option + g.tail) <==> Balanced(s)
  {
    var g := FirstGroup(s).value;
    GroupIsBalanced(s);
    WholeWalks(g, 0);
    ChoiceWalks(g, option, 0);
  }

  // ---------- splitting ----------

  lemma JoinGlue(head: string, parts: seq<string>)
    requires parts != []
    ensures Join(Glue(head, parts)) == head + Join(parts)
  {
    if |parts| > 1 {
      assert Glue(head, parts)[1..] == parts[1..];
      assert head + parts[0] + "," + Join(parts[1..]) == head + (parts[0] + "," + Join(parts[1..]));
    }
  }

  lemma JoinMore(part: string, rest: seq<string>)
    requires rest != []
    ensures Join([part] + rest) == part + "," + Join(rest)
  {
    assert ([part] + rest)[1..] == rest;
  }

  /** The parts joined by commas are the text that was split, for any text. */
  lemma {:induction false} SplitRejoins(s: string, depth: int)
    ensures Join(Split(s, depth)) == s
    decreases |s|
  {
    if s != "" {
      SplitRejoins(s[1..], depth + Delta(s[0]));
      var rest := Split(s[1..], depth + Delta(s[0]));
      assert s == [s[0]] + s[1..];
      if s[0] == ',' && depth == 0 {
        assert Split(s, depth) == [""] + rest;
        JoinMore("", rest);
        assert "" + "," + s[1..] == s;
      } else {
        assert Split(s, depth) == Glue([s[0]], rest);
        JoinGlue([s[0]], rest);
      }
    }
  }

  lemma {:induction false} SplitParts(s: string, depth: nat)
    requires Walk(s, depth) == Some(0)
    ensures var parts := Split(s, depth);
            && Walk(parts[0], depth) == Some(0) && NoTopComma(parts[0], depth)
            && forall k | 1 <= k < |parts| :: IsOption(parts[k])
  {
    if s != "" {
      SplitParts(s[1..], depth + Delta(s[0]));
      var rest := Split(s[1..], depth + Delta(s[0]));
      if s[0] == ',' && depth == 0 {
        assert ([""] + rest)[1..] == rest;
      } else {
        assert ([s[0]] + rest[0])[1..] == rest[0];
      }
    }
  }

  lemma {:induction false} SplitOne(part: string, depth: nat)
    requires Walk(part, depth) == Some(0) && NoTopComma(part, depth)
    ensures Split(part, depth) == [part]
  {
    if part != "" {
      SplitOne(part[1..], depth + Delta(part[0]));
      assert part == [part[0]] + part[1..];
    }
  }

  lemma {:induction false} SplitMore(part: string, rest: string, depth: nat)
    requires Walk(part, depth) == Some(0) && NoTopComma(part, depth)
    ensures Split(part + "," + rest, depth) == [part] + Split(rest, 0)
  {
    var s := part + "," + rest;
    if part == "" {
      assert s[1..] == rest;
    } else {
      assert s[1..] == part[1..] + "," + rest;
      SplitMore(part[1..], rest, depth + Delta(part[0]));
      assert part == [part[0]] + part[1..];
    }
  }

  lemma {:induction false} SplitOfJoin(parts: seq<string>)
    requires parts != [] && forall p | p in parts :: IsOption(p)
    ensures Split(Join(parts), 0) == parts
  {
    assert parts[0] in parts;
    if |parts| == 1 {
      SplitOne(parts[0], 0);
    } else {
      SplitOfJoin(parts[1..]);
      SplitMore(parts[0], Join(parts[1..]), 0);
      assert parts == [parts[0]] + parts[1..];
    }
  }

  /** Of balanced text, the split is the one list of options that joins back to it. */
  lemma SplitExactly(body: string, parts: seq<string>)
    requires Balanced(body)
    ensures Split(body, 0) == parts <==>
            parts != [] && Join(parts) == body && forall p | p in parts :: IsOption(p)
  {
    SplitRejoins(body, 0);
    SplitParts(body, 0);
    if parts != [] && Join(parts) == body && forall p | p in parts :: IsOption(p) {
      SplitOfJoin(parts);
    }
  }

  // ---------- no braces left ----------

  /** A result still has a brace exactly when the pattern's braces do not pair up. */
  lemma {:induction false} BracesGoneExactly(s: string)
    ensures forall r | r in Expand(s) :: NoBraces(r) <==> Balanced(s)
    decreases Opens(s), 1, 0
  {
    if FirstGroup(s).None? {
      if '{' in s {
        if Balanced(s) { BalancedHasGroup(s); }
      } else {
        FlatIsBalanced(s);
      }
    } else {
      var g := FirstGroup(s).value;
      OptionsOpenLess(g);
      GroupIsBalanced(s);
      SplitParts(g.body, 0);
      BracesGoneEach(s, g, Split(g.body, 0));
    }
  }

  lemma {:induction false} BracesGoneEach(s: string, g: Group, options: seq<string>)
    requires FirstGroup(s) == Some(g)
    requires forall o :: o in options ==> IsOption(o) && Opens(g.head + o + g.tail) < Opens(s)
    ensures forall r | r in ExpandEach(g, options, Opens(s)) :: NoBraces(r) <==> Balanced(s)
    decreases Opens(s), 0, |options|
  {
    if options != [] {
      assert options[0] in options;
      ChoiceKeepsBalance(s, options[0]);
      BracesGoneExactly(g.head + options[0] + g.tail);
      BracesGoneEach(s, g, options[1..]);
    }
  }
}
