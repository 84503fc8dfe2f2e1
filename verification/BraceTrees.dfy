/** The meaning of a brace pattern as a tree, and the proof that the text expansion computes it. */
module BraceTrees {
  import opened Options
  import opened Braces
  import opened BraceLaws

  datatype Pat = Done | Char(letter: char, rest: Pat) | Alt(options: Alts, rest: Pat)
  datatype Alts = Last(only: Pat) | Or(first: Pat, more: Alts)

  /** Braces are only written by groups, and inside a group commas only separate options. */
  predicate WellFormed(p: Pat, inside: bool) {
    match p
    case Done => true
    case Char(c, rest) => c != '{' && c != '}' && (inside ==> c != ',') && WellFormed(rest, inside)
    case Alt(options, rest) => WellFormedAlts(options) && WellFormed(rest, inside)
  }

  predicate WellFormedAlts(a: Alts) {
    match a
    case Last(p) => WellFormed(p, true)
    case Or(p, more) => WellFormed(p, true) && WellFormedAlts(more)
  }

  function Text(p: Pat): string {
    match p
    case Done => ""
    case Char(c, rest) => [c] + Text(rest)
    case Alt(options, rest) => "{" + TextAlts(options) + "}" + Text(rest)
  }

  function TextAlts(a: Alts): string {
    match a
    case Last(p) => Text(p)
    case Or(p, more) => Text(p) + "," + TextAlts(more)
  }

  function Texts(a: Alts): (r: seq<string>)
    ensures r != []
  {
    match a
    case Last(p) => [Text(p)]
    case Or(p, more) => [Text(p)] + Texts(more)
  }

  /** The strings a pattern stands for: one choice per group, leftmost group varying slowest. */
  function Denote(p: Pat): seq<string> {
    match p
    case Done => [""]
    case Char(c, rest) => Prefix([c], Denote(rest))
    case Alt(options, rest) => Product(DenoteAlts(options), Denote(rest))
  }

  function DenoteAlts(a: Alts): seq<string> {
    match a
    case Last(p) => Denote(p)
    case Or(p, more) => Denote(p) + DenoteAlts(more)
  }

  function Prefix(head: string, tails: seq<string>): seq<string> {
    if tails == [] then [] else [head + tails[0]] + Prefix(head, tails[1..])
  }

  function Product(heads: seq<string>, tails: seq<string>): seq<string> {
    if heads == [] then [] else Prefix(heads[0], tails) + Product(heads[1..], tails)
  }

  function Append(p: Pat, q: Pat): Pat {
    match p
    case Done => q
    case Char(c, rest) => Char(c, Append(rest, q))
    case Alt(options, rest) => Alt(options, Append(rest, q))
  }

  function Groups(p: Pat): nat {
    match p
    case Done => 0
    case Char(_, rest) => Groups(rest)
    case Alt(options, rest) => 1 + GroupsAlts(options) + Groups(rest)
  }

  function GroupsAlts(a: Alts): nat {
    match a
    case Last(p) => Groups(p)
    case Or(p, more) => Groups(p) + GroupsAlts(more)
  }

  // ---------- products ----------

  lemma {:induction false} PrefixPrefix(a: string, b: string, tails: seq<string>)
    ensures Prefix(a, Prefix(b, tails)) == Prefix(a + b, tails)
  {
    if tails != [] {
      PrefixPrefix(a, b, tails[1..]);
      assert a + (b + tails[0]) == a + b + tails[0];
      assert Prefix(b, tails)[1..] == Prefix(b, tails[1..]);
    }
  }

  lemma {:induction false} PrefixAppend(head: string, a: seq<string>, b: seq<string>)
    ensures Prefix(head, a + b) == Prefix(head, a) + Prefix(head, b)
  {
    if a == [] {
      assert a + b == b;
    } else {
      assert (a + b)[1..] == a[1..] + b;
      PrefixAppend(head, a[1..], b);
    }
  }

  lemma {:induction false} PrefixNothing(tails: seq<string>)
    ensures Prefix("", tails) == tails
  {
    if tails != [] {
      assert "" + tails[0] == tails[0];
      PrefixNothing(tails[1..]);
    }
  }

  lemma {:induction false} ProductAppend(a: seq<string>, b: seq<string>, tails: seq<string>)
    ensures Product(a + b, tails) == Product(a, tails) + Product(b, tails)
  {
    if a == [] {
      assert a + b == b;
    } else {
      assert (a + b)[1..] == a[1..] + b;
      ProductAppend(a[1..], b, tails);
    }
  }

  lemma {:induction false} ProductOfPrefix(head: string, a: seq<string>, tails: seq<string>)
    ensures Product(Prefix(head, a), tails) == Prefix(head, Product(a, tails))
  {
    if a != [] {
      PrefixPrefix(head, a[0], tails);
      ProductOfPrefix(head, a[1..], tails);
      PrefixAppend(head, Prefix(a[0], tails), Product(a[1..], tails));
      assert Prefix(head, a)[1..] == Prefix(head, a[1..]);
    }
  }

  lemma {:induction false} ProductAssociates(a: seq<string>, b: seq<string>, c: seq<string>)
    ensures Product(Product(a, b), c) == Product(a, Product(b, c))
  {
    if a != [] {
      ProductAppend(Prefix(a[0], b), Product(a[1..], b), c);
      ProductOfPrefix(a[0], b, c);
      ProductAssociates(a[1..], b, c);
    }
  }

  // ---------- appending trees ----------

  lemma {:induction false} AppendDenotes(p: Pat, q: Pat)
    ensures Denote(Append(p, q)) == Product(Denote(p), Denote(q))
  {
    match p
    case Done =>
      PrefixNothing(Denote(q));
    case Char(c, rest) =>
      AppendDenotes(rest, q);
      ProductOfPrefix([c], Denote(rest), Denote(q));
    case Alt(options, rest) =>
      AppendDenotes(rest, q);
      ProductAssociates(DenoteAlts(options), Denote(rest), Denote(q));
  }

  lemma {:induction false} AppendReads(p: Pat, q: Pat)
    ensures Text(Append(p, q)) == Text(p) + Text(q)
    ensures Groups(Append(p, q)) == Groups(p) + Groups(q)
  {
    match p
    case Done =>
    case Char(c, rest) =>
      AppendReads(rest, q);
    case Alt(options, rest) =>
      AppendReads(rest, q);
      assert "{" + TextAlts(options) + "}" + (Text(rest) + Text(q)) ==
             "{" + TextAlts(options) + "}" + Text(rest) + Text(q);
  }

  lemma {:induction false} AppendIsWellFormed(p: Pat, q: Pat)
    requires WellFormed(p, true) && WellFormed(q, false)
    ensures WellFormed(Append(p, q), false)
  {
    match p
    case Done =>
    case Char(_, rest) => AppendIsWellFormed(rest, q);
    case Alt(_, rest) => AppendIsWellFormed(rest, q);
  }

  // ---------- the text of a tree is balanced and splits into its options ----------

  lemma {:induction false} NoTopCommaAppend(a: string, b: string, depth: nat)
    requires Walk(a, depth).Some?
    ensures NoTopComma(a + b, depth) <==> NoTopComma(a, depth) && NoTopComma(b, Walk(a, depth).value)
  {
    if a == "" {
      assert a + b == b;
    } else {
      assert (a + b)[1..] == a[1..] + b;
      NoTopCommaAppend(a[1..], b, depth + Delta(a[0]));
    }
  }

  /** Inside a group no comma is at the top, whatever balanced text stands there. */
  lemma {:induction false} NoCommaDeeper(s: string, depth: nat)
    requires Walk(s, depth).Some?
    ensures NoTopComma(s, depth + 1)
  {
    if s != "" {
      NoCommaDeeper(s[1..], depth + Delta(s[0]));
    }
  }

  lemma {:induction false} BracedReads(body: string)
    requires Balanced(body)
    ensures IsOption("{" + body + "}")
  {
    WalkDeeper(body, 0, 1);
    NoCommaDeeper(body, 0);
    assert "{" + body + "}" == "{" + (body + "}");
    WalkAppend("{", body + "}", 0);
    WalkAppend(body, "}", 1);
    NoTopCommaAppend("{", body + "}", 0);
    NoTopCommaAppend(body, "}", 1);
  }

  lemma {:induction false} TextIsBalanced(p: Pat, inside: bool)
    requires WellFormed(p, inside)
    ensures Balanced(Text(p))
    ensures inside ==> IsOption(Text(p))
  {
    match p
    case Done =>
    case Char(c, rest) =>
      TextIsBalanced(rest, inside);
      assert Text(p)[1..] == Text(rest);
    case Alt(options, rest) =>
      TextIsBalanced(rest, inside);
      AltsAreOptions(options);
      var group := "{" + TextAlts(options) + "}";
      BracedReads(TextAlts(options));
      WalkAppend(group, Text(rest), 0);
      NoTopCommaAppend(group, Text(rest), 0);
  }

  lemma {:induction false} AltsAreOptions(a: Alts)
    requires WellFormedAlts(a)
    ensures Balanced(TextAlts(a)) && Join(Texts(a)) == TextAlts(a)
    ensures forall t | t in Texts(a) :: IsOption(t)
  {
    match a
    case Last(p) => TextIsBalanced(p, true);
    case Or(p, more) =>
      TextIsBalanced(p, true);
      AltsAreOptions(more);
      assert Texts(a)[1..] == Texts(more);
      assert TextAlts(a) == Text(p) + ("," + TextAlts(more));
      WalkAppend(Text(p), "," + TextAlts(more), 0);
      WalkAppend(",", TextAlts(more), 0);
  }

  // ---------- expansion computes the meaning ----------

  lemma {:induction false} ExpandAfter(head: string, p: Pat)
    requires NoBraces(head) && WellFormed(p, false)
    ensures Expand(head + Text(p)) == Prefix(head, Denote(p))
    decreases Groups(p), 1, p
  {
    match p
    case Done =>
      assert head + "" == head;
    case Char(c, rest) =>
      assert head + Text(p) == head + [c] + Text(rest);
      ExpandAfter(head + [c], rest);
      PrefixPrefix(head, [c], Denote(rest));
    case Alt(options, rest) =>
      var g := Group(head, TextAlts(options), Text(rest));
      assert head + Text(p) == Whole(g);
      AltsAreOptions(options);
      GroupIsFound(g);
      SplitExactly(g.body, Texts(options));
      OptionsOpenLess(g);
      ExpandAlts(g, options, rest, Opens(Whole(g)));
  }

  lemma {:induction false} ExpandAlts(g: Group, a: Alts, rest: Pat, bound: nat)
    requires NoBraces(g.head) && WellFormedAlts(a) && WellFormed(rest, false) && g.tail == Text(rest)
    requires forall o :: o in Texts(a) ==> Opens(g.head + o + g.tail) < bound
    ensures ExpandEach(g, Texts(a), bound) == Prefix(g.head, Product(DenoteAlts(a), Denote(rest)))
    decreases GroupsAlts(a) + Groups(rest), 2, a
  {
    var p := if a.Last? then a.only else a.first;
    assert Text(p) in Texts(a);
    AppendReads(p, rest);
    AppendIsWellFormed(p, rest);
    assert g.head + Text(p) + g.tail == g.head + Text(Append(p, rest));
    ExpandAfter(g.head, Append(p, rest));
    AppendDenotes(p, rest);
    if a.Or? {
      assert Texts(a)[1..] == Texts(a.more);
      ExpandAlts(g, a.more, rest, bound);
      ProductAppend(Denote(p), DenoteAlts(a.more), Denote(rest));
      PrefixAppend(g.head, Product(Denote(p), Denote(rest)), Product(DenoteAlts(a.more), Denote(rest)));
    } else {
      assert Texts(a)[1..] == [];
    }
  }

  /** The expansion of a pattern's text is the left-to-right product of its alternatives. */
  lemma ExpandDenotes(p: Pat)
    requires WellFormed(p, false)
    ensures Expand(Text(p)) == Denote(p)
  {
    assert "" + Text(p) == Text(p);
    ExpandAfter("", p);
    PrefixNothing(Denote(p));
  }

  // ---------- every balanced text is the text of a tree ----------

  lemma {:induction false} PartsAreShort(parts: seq<string>)
    requires parts != []
    ensures forall p | p in parts :: |p| <= |Join(parts)|
  {
    if |parts| > 1 {
      PartsAreShort(parts[1..]);
      assert forall p | p in parts :: p == parts[0] || p in parts[1..];
    }
  }

  /** Balanced text that starts with a brace is one group and then balanced text. */
  lemma LeadingGroup(s: string) returns (g: Group)
    requires Balanced(s) && s != "" && s[0] == '{'
    ensures FirstGroup(s) == Some(g) && s == "{" + g.body + "}" + g.tail
    ensures Balanced(g.body) && Balanced(g.tail)
    ensures NoTopComma(s, 0) ==> NoTopComma(g.tail, 0)
  {
    BalancedHasGroup(s);
    GroupIsBalanced(s);
    g := FirstGroup(s).value;
    assert FirstOpen(s) == Some(0);
    var group := "{" + g.body + "}";
    assert Whole(g) == group + g.tail;
    WholeWalks(g, 0);
    BracedReads(g.body);
    NoTopCommaAppend(group, g.tail, 0);
  }

  lemma {:induction false} TreeOf(s: string) returns (p: Pat)
    requires Balanced(s)
    ensures Text(p) == s && WellFormed(p, false) && (NoTopComma(s, 0) ==> WellFormed(p, true))
    decreases |s|, 1, 0
  {
    if s == "" {
      p := Done;
    } else if s[0] == '{' {
      var g := LeadingGroup(s);
      var options := OptionsOf(g.body);
      var rest := TreeOf(g.tail);
      p := Alt(options, rest);
    } else {
      var rest := TreeOf(s[1..]);
      p := Char(s[0], rest);
    }
  }

  lemma {:induction false} OptionsOf(body: string) returns (a: Alts)
    requires Balanced(body)
    ensures TextAlts(a) == body && WellFormedAlts(a)
    decreases |body|, 3, 0
  {
    SplitParts(body, 0);
    SplitRejoins(body, 0);
    PartsAreShort(Split(body, 0));
    a := TreesOf(Split(body, 0), |body|);
  }

  lemma {:induction false} TreesOf(parts: seq<string>, bound: nat) returns (a: Alts)
    requires parts != [] && forall p | p in parts :: IsOption(p) && |p| <= bound
    ensures TextAlts(a) == Join(parts) && WellFormedAlts(a)
    decreases bound, 2, |parts|
  {
    assert parts[0] in parts;
    var first := TreeOf(parts[0]);
    if |parts| == 1 {
      a := Last(first);
    } else {
      var more := TreesOf(parts[1..], bound);
      a := Or(first, more);
    }
  }

  /** The braces of a pattern pair up exactly when it is the text of some tree of alternatives. */
  lemma BalancedExactly(s: string)
    ensures Balanced(s) <==> exists p :: WellFormed(p, false) && Text(p) == s
  {
    if Balanced(s) {
      var p := TreeOf(s);
    }
    forall p | WellFormed(p, false) && Text(p) == s ensures Balanced(s) {
      TextIsBalanced(p, false);
    }
  }
}
