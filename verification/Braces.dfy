/** Brace alternation in path globs: "src/{a,b{c,d}}.ts" stands for several brace-free globs. */
module Braces {
  import opened Options

  // ---------- the text side: what the tool computes on characters ----------

  function Delta(c: char): int { if c == '{' then 1 else if c == '}' then -1 else 0 }

  function Opens(s: string): nat {
    if s == "" then 0 else (if s[0] == '{' then 1 else 0) + Opens(s[1..])
  }

  lemma {:induction false} OpensAppend(a: string, b: string)
    ensures Opens(a + b) == Opens(a) + Opens(b)
  {
    if a == "" {
      assert a + b == b;
    } else {
      assert (a + b)[1..] == a[1..] + b;
      OpensAppend(a[1..], b);
    }
  }

  /** Position of the first '{', if any. */
  function FirstOpen(s: string): (r: Option<nat>)
    ensures r.None? <==> '{' !in s
    ensures r.Some? ==> r.value < |s| && s[r.value] == '{' && forall k | 0 <= k < r.value :: s[k] != '{'
  {
    if s == "" then None
    else if s[0] == '{' then Some(0)
    else Later(FirstOpen(s[1..]), 1)
  }

  function Later(found: Option<nat>, offset: nat): Option<nat> {
    match found
    case None => None
    case Some(i) => Some(i + offset)
  }

  /** From position i on, where the brace stands that closes the last of depth open groups. */
  function Closing(s: string, i: nat, depth: nat): (r: Option<nat>)
    requires i <= |s| && depth >= 1
    ensures r.Some? ==> i <= r.value < |s| && s[r.value] == '}'
    decreases |s| - i
  {
    if i == |s| then None
    else if s[i] == '}' && depth == 1 then Some(i)
    else Closing(s, i + 1, depth + Delta(s[i]))
  }

  function Glue(head: string, parts: seq<string>): seq<string>
    requires parts != []
  {
    [head + parts[0]] + parts[1..]
  }

  /** Cuts s at each comma met at depth zero. */
  function Split(s: string, depth: int): (parts: seq<string>)
    ensures parts != []
    decreases |s|
  {
    if s == "" then [""]
    else if s[0] == ',' && depth == 0 then [""] + Split(s[1..], 0)
    else Glue([s[0]], Split(s[1..], depth + Delta(s[0])))
  }

  /** A pattern taken apart around one of its groups: head "{" body "}" tail. */
  datatype Group = Group(head: string, body: string, tail: string)

  function FirstGroup(s: string): (r: Option<Group>)
    ensures r.Some? ==> s == Whole(r.value) && '{' !in r.value.head
    ensures '{' !in s ==> r.None?
  {
    match FirstOpen(s)
    case None => None
    case Some(start) =>
      match Closing(s, start + 1, 1)
      case None => None
      case Some(i) => CutsAreWhole(s, start, i); Some(Cut(s, start, i))
  }

  function Cut(s: string, start: nat, index: nat): Group
    requires start < index < |s|
  {
    Group(s[..start], s[start + 1..index], s[index + 1..])
  }

  lemma CutsAreWhole(s: string, start: nat, index: nat)
    requires start < index < |s| && s[start] == '{' && s[index] == '}'
    ensures Whole(Cut(s, start, index)) == s
  {
  }

  function Whole(g: Group): string { g.head + "{" + g.body + "}" + g.tail }

  function Expand(s: string): (r: seq<string>)
    ensures r != []
    decreases Opens(s), 1, 0
  {
    match FirstGroup(s)
    case None => [s]
    case Some(g) =>
      OptionsOpenLess(g);
      ExpandEach(g, Split(g.body, 0), Opens(s))
  }

  /** The expansions of head + option + tail, option by option. */
  function ExpandEach(g: Group, options: seq<string>, ghost bound: nat): (r: seq<string>)
    requires forall o :: o in options ==> Opens(g.head + o + g.tail) < bound
    ensures options != [] ==> r != []
    decreases bound, 0, |options|
  {
    if options == [] then []
    else Expand(g.head + options[0] + g.tail) + ExpandEach(g, options[1..], bound)
  }

  lemma {:induction false} SplitOpens(s: string, depth: int)
    ensures forall o :: o in Split(s, depth) ==> Opens(o) <= Opens(s)
    decreases |s|
  {
    if s != "" {
      if s[0] == ',' && depth == 0 {
        SplitOpens(s[1..], 0);
      } else {
        var rest := Split(s[1..], depth + Delta(s[0]));
        SplitOpens(s[1..], depth + Delta(s[0]));
        OpensAppend([s[0]], rest[0]);
        forall o | o in Split(s, depth) ensures Opens(o) <= Opens(s) {
          if o != [s[0]] + rest[0] { assert o in rest; }
        }
      }
    }
  }

  /** Replacing a group by one of its options removes at least one opening brace. */
  lemma OptionsOpenLess(g: Group)
    ensures forall o :: o in Split(g.body, 0) ==> Opens(g.head + o + g.tail) < Opens(Whole(g))
  {
    SplitOpens(g.body, 0);
    OpensAppend(g.head + "{" + g.body + "}", g.tail);
    OpensAppend(g.head + "{" + g.body, "}");
    OpensAppend(g.head + "{", g.body);
    OpensAppend(g.head, "{");
    forall o | o in Split(g.body, 0) ensures Opens(g.head + o + g.tail) < Opens(Whole(g)) {
      OpensAppend(g.head + o, g.tail);
      OpensAppend(g.head, o);
    }
  }

  // ---------- the loops ----------

  lemma GlueNothing(parts: seq<string>)
    requires parts != []
    ensures Glue("", parts) == parts
  {
    assert "" + parts[0] == parts[0];
  }

  method SplitTopLevel(body: string) returns (parts: seq<string>)
    ensures parts == Split(body, 0)
  {
    parts := [];
    var depth, current := 0, "";
    GlueNothing(Split(body, 0));
    assert body[0..] == body;
    for i := 0 to |body|
      invariant parts + Glue(current, Split(body[i..], depth)) == Split(body, 0)
    {
      var letter := body[i];
      ghost var rest := Split(body[i + 1..], depth + Delta(letter));
      ghost var before, was := parts, current;
      assert body[i..][1..] == body[i + 1..];
      if letter == '{' {
        depth := depth + 1;
      } else if letter == '}' {
        depth := depth - 1;
      }
      if letter == ',' && depth == 0 {
        parts := parts + [current];
        current := "";
        GlueNothing(rest);
        assert was + "" == was;
        assert Glue(was, [""] + rest) == [was] + rest;
        assert before + ([was] + rest) == parts + Glue(current, rest);
      } else {
        current := current + [letter];
        assert was + ([letter] + rest[0]) == current + rest[0];
        assert Glue(was, Glue([letter], rest)) == Glue(current, rest);
      }
    }
    assert body[|body|..] == "";
    assert current + "" == current;
    assert Glue(current, [""]) == [current];
    parts := parts + [current];
  }

  /** The depth scan: from the brace at start to the brace that closes it. */
  method FindClosing(pattern: string, start: nat) returns (found: Option<nat>)
    requires start < |pattern| && pattern[start] == '{'
    ensures found == Closing(pattern, start + 1, 1)
  {
    var depth := 0;
    for index := start to |pattern|
      invariant if index == start then depth == 0
                else depth >= 1 && Closing(pattern, start + 1, 1) == Closing(pattern, index, depth)
    {
      if pattern[index] == '{' {
        depth := depth + 1;
      } else if pattern[index] == '}' {
        depth := depth - 1;
        if depth == 0 {
          return Some(index);
        }
      }
    }
    return None;
  }

  method ExpandBraces(pattern: string) returns (expanded: seq<string>)
    ensures expanded == Expand(pattern)
    decreases Opens(pattern)
  {
    var start := FirstOpen(pattern);
    if start.None? {
      return [pattern];
    }
    var index := FindClosing(pattern, start.value);
    if index.None? {
      return [pattern];
    }
    var head, tail := pattern[..start.value], pattern[index.value + 1..];
    expanded := ExpandOptions(pattern, head, pattern[start.value + 1..index.value], tail);
  }

  method ExpandOptions(pattern: string, head: string, body: string, tail: string) returns (expanded: seq<string>)
    requires FirstGroup(pattern) == Some(Group(head, body, tail))
    ensures expanded == Expand(pattern)
    decreases Opens(pattern), 0
  {
    var options := SplitTopLevel(body);
    ghost var g := Group(head, body, tail);
    OptionsOpenLess(g);
    expanded := [];
    for k := 0 to |options|
      invariant expanded + ExpandEach(g, options[k..], Opens(pattern)) == Expand(pattern)
    {
      assert options[k..][1..] == options[k + 1..] && options[k..][0] == options[k];
      assert options[k] in options;
      var one := ExpandBraces(head + options[k] + tail);
      expanded := expanded + one;
    }
    assert options[|options|..] == [];
  }
}
