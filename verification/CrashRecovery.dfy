/** What a session file cut at an arbitrary byte still holds. */
module CrashRecovery {
  import opened Options
  import opened Json
  import opened Dataset

  /** A session file: one object to a line. */
  function FileText(objects: seq<Fields>): string {
    if objects == [] then "" else Dump(Obj(objects[0])) + "\n" + FileText(objects[1..])
  }

  /** How many objects are complete in the first n characters; the line break need not be. */
  function Complete(objects: seq<Fields>, n: nat): (k: nat)
    ensures k <= |objects|
  {
    if objects == [] || n < |Dump(Obj(objects[0]))| then 0
    else 1 + Complete(objects[1..], if n == |Dump(Obj(objects[0]))| then 0 else n - |Dump(Obj(objects[0]))| - 1)
  }

  /** The first k objects end, line break aside, within n characters, and one more would not. */
  lemma {:induction false} CompleteIs(objects: seq<Fields>, n: nat)
    ensures var k := Complete(objects, n);
            && |FileText(objects[..k])| <= n + 1
            && (k < |objects| ==> |FileText(objects[..k + 1])| > n + 1)
  {
    var k := Complete(objects, n);
    if objects != [] {
      var d := |Dump(Obj(objects[0]))|;
      if n >= d {
        CompleteIs(objects[1..], if n == d then 0 else n - d - 1);
        assert objects[..k][0] == objects[0] && objects[..k][1..] == objects[1..][..k - 1];
        if k < |objects| {
          assert objects[..k + 1][0] == objects[0] && objects[..k + 1][1..] == objects[1..][..k];
        }
      } else {
        assert objects[..1][0] == objects[0] && objects[..1][1..] == [] && objects[..0] == [];
      }
    }
  }

  /** What is needed of the JSON reader: it reads back what was written, and nothing it reads leaves a
      group or a string open. */
  ghost predicate Reads(parse: Parser, objects: seq<Fields>) {
    && (forall o | o in objects :: PrintableFields(o) && parse(Dump(Obj(o))) == Some(Obj(o)))
    && (forall s :: parse(s).Some? ==> Closed(s))
  }

  function Dumps(objects: seq<Fields>): seq<string> {
    seq(|objects|, i requires 0 <= i < |objects| => Dump(Obj(objects[i])))
  }

  // ---------- stripping and splitting written text ----------

  lemma {:induction false} RightStripKeepsStart(s: string)
    requires s != "" && !IsSpace(s[0])
    ensures var r := RightStrip(s); 0 < |r| <= |s| && r == s[..|r|]
  {
    if IsSpace(s[|s| - 1]) {
      RightStripKeepsStart(s[..|s| - 1]);
    }
  }

  lemma {:induction false} OneLine(s: string)
    requires forall c | c in s :: !IsBreak(c)
    ensures LineEnd(s) == |s|
  {
    if s != "" {
      assert s[0] in s;
      assert forall c | c in s[1..] :: c in s by { assert s == [s[0]] + s[1..]; }
      OneLine(s[1..]);
    }
  }

  lemma {:induction false} BreakEnds(s: string, rest: string)
    requires forall c | c in s :: !IsBreak(c)
    ensures LineEnd(s + "\n" + rest) == |s|
  {
    if s != "" {
      assert s[0] in s;
      assert forall c | c in s[1..] :: c in s by { assert s == [s[0]] + s[1..]; }
      BreakEnds(s[1..], rest);
      assert (s + "\n" + rest)[1..] == s[1..] + "\n" + rest;
    }
  }

  lemma LinesOfOne(s: string)
    requires s != "" && forall c | c in s :: !IsBreak(c)
    ensures Lines(s) == [s]
  {
    OneLine(s);
    assert s[..|s|] == s;
  }

  lemma LinesOfMore(s: string, rest: string)
    requires forall c | c in s :: !IsBreak(c)
    ensures Lines(s + "\n" + rest) == [s] + Lines(rest)
  {
    BreakEnds(s, rest);
    var text := s + "\n" + rest;
    assert text[..|s|] == s && text[|s| + 1..] == rest;
  }

  lemma {:induction false} NonBlankAppend(a: seq<string>, b: seq<string>)
    ensures NonBlank(a + b) == NonBlank(a) + NonBlank(b)
  {
    if b == [] {
      assert a + b == a;
    } else {
      assert (a + b)[..|a + b| - 1] == a + b[..|b| - 1];
      NonBlankAppend(a, b[..|b| - 1]);
    }
  }

  lemma NonBlankOne(s: string)
    requires s != "" && !IsSpace(s[0])
    ensures NonBlank([s]) == [RightStrip(s)]
  {
    RightStripKeepsStart(s);
    assert [s][..0] == [];
  }

  lemma ObjectIsLine(o: Fields)
    requires PrintableFields(o)
    ensures var d := Dump(Obj(o));
            && |d| >= 2 && d[0] == '{' && RightStrip(d) == d
            && forall c | c in d :: !IsBreak(c)
  {
    DumpKeeps(Obj(o), 0);
  }

  // ---------- the cut ----------

  /** The non-blank lines of a cut file: the complete objects, and a torn line unless the cut fell
      between two lines. */
  ghost predicate CutInto(lines: seq<string>, objects: seq<Fields>, n: nat) {
    var k := Complete(objects, n);
    || lines == Dumps(objects[..k])
    || (k < |objects| && exists m | 0 < m < |Dump(Obj(objects[k]))| ::
          lines == Dumps(objects[..k]) + [Dump(Obj(objects[k]))[..m]])
  }

  lemma {:induction false} CutLines(objects: seq<Fields>, n: nat)
    requires n <= |FileText(objects)| && forall o | o in objects :: PrintableFields(o)
    ensures CutInto(NonBlank(Lines(FileText(objects)[..n])), objects, n)
    decreases |objects|, 1
  {
    if objects == [] {
      assert FileText(objects)[..n] == "";
    } else {
      var d := Dump(Obj(objects[0]));
      assert objects[0] in objects;
      ObjectIsLine(objects[0]);
      if n < |d| {
        TornLine(objects, n);
      } else {
        WholeLine(objects, n);
      }
    }
  }

  lemma TornText(d: string, n: nat) returns (m: nat)
    requires 0 < n < |d| && !IsSpace(d[0]) && forall c | c in d :: !IsBreak(c)
    ensures 0 < m < |d| && NonBlank(Lines(d[..n])) == [d[..m]]
  {
    var cut := d[..n];
    assert forall c | c in cut :: c in d;
    LinesOfOne(cut);
    NonBlankOne(cut);
    RightStripKeepsStart(cut);
    m := |RightStrip(cut)|;
    assert cut[..m] == d[..m];
  }

  lemma CutOfText(d: string, rest: string, n: nat)
    requires n <= |d| + 1 + |rest|
    ensures (d + "\n" + rest)[..n] == if n <= |d| then d[..n] else d + "\n" + rest[..n - |d| - 1]
  {
  }

  lemma LinesOfCut(d: string, rest: string, n: nat)
    requires d != "" && n >= |d| && (n == |d| ==> rest == "") && forall c | c in d :: !IsBreak(c)
    ensures Lines(if n == |d| then d[..n] else d + "\n" + rest) == [d] + Lines(rest)
  {
    if n == |d| {
      assert d[..n] == d;
      LinesOfOne(d);
      assert [d] + Lines("") == [d];
    } else {
      LinesOfMore(d, rest);
    }
  }

  lemma TornLine(objects: seq<Fields>, n: nat)
    requires objects != [] && PrintableFields(objects[0]) && n < |Dump(Obj(objects[0]))|
    requires n <= |FileText(objects)|
    ensures CutInto(NonBlank(Lines(FileText(objects)[..n])), objects, n)
  {
    var d := Dump(Obj(objects[0]));
    ObjectIsLine(objects[0]);
    CutOfText(d, FileText(objects[1..]), n);
    assert Dumps(objects[..0]) == [];
    if n > 0 {
      var m := TornText(d, n);
      assert [] + [d[..m]] == [d[..m]];
    } else {
      assert d[..0] == "" && NonBlank(Lines("")) == [];
    }
  }

  lemma {:induction false} WholeLine(objects: seq<Fields>, n: nat)
    requires objects != [] && n <= |FileText(objects)| && forall o | o in objects :: PrintableFields(o)
    requires n >= |Dump(Obj(objects[0]))|
    ensures CutInto(NonBlank(Lines(FileText(objects)[..n])), objects, n)
    decreases |objects|, 0
  {
    var d := Dump(Obj(objects[0]));
    var m := if n == |d| then 0 else n - |d| - 1;
    assert objects[0] in objects;
    ObjectIsLine(objects[0]);
    CutLines(objects[1..], m);
    var rest := FileText(objects[1..])[..m];
    CutOfText(d, FileText(objects[1..]), n);
    LinesOfCut(d, rest, n);
    NonBlankOne(d);
    NonBlankAppend([d], Lines(rest));
    CutIntoMore(objects, n, m, NonBlank(Lines(rest)));
  }

  lemma CutIntoMore(objects: seq<Fields>, n: nat, m: nat, rest: seq<string>)
    requires objects != [] && CutInto(rest, objects[1..], m)
    requires Complete(objects, n) == 1 + Complete(objects[1..], m)
    ensures CutInto([Dump(Obj(objects[0]))] + rest, objects, n)
  {
    var k := Complete(objects, n);
    assert Dumps(objects[..k]) == [Dump(Obj(objects[0]))] + Dumps(objects[1..][..k - 1]);
    if rest != Dumps(objects[1..][..k - 1]) {
      assert objects[1..][k - 1] == objects[k];
    }
  }

  // ---------- recovery ----------

  lemma CutVerdict(parse: Parser, objects: seq<Fields>, n: nat, lines: seq<string>)
    requires Reads(parse, objects) && CutInto(lines, objects, n) && Complete(objects, n) >= 1
    ensures var k := Complete(objects, n);
            && (forall i | 0 <= i < k :: i < |lines| && parse(lines[i]) == Some(Obj(objects[i])))
            && (|lines| == k || (|lines| == k + 1 && parse(lines[k]).None?))
  {
    var k := Complete(objects, n);
    forall i | 0 <= i < k ensures i < |lines| && parse(lines[i]) == Some(Obj(objects[i])) {
      assert objects[..k][i] in objects;
    }
    if lines != Dumps(objects[..k]) {
      var m :| 0 < m < |Dump(Obj(objects[k]))| && lines == Dumps(objects[..k]) + [Dump(Obj(objects[k]))[..m]];
      assert objects[k] in objects;
      CutIsOpen(objects[k], m);
    }
  }

  function Objects(fields: seq<Fields>): seq<Json> { seq(|fields|, i requires 0 <= i < |fields| => Obj(fields[i])) }

  lemma VerdictOfCut(parse: Parser, objects: seq<Fields>, lines: seq<string>, k: nat)
    requires 1 <= k <= |objects| && k <= |lines|
    requires forall i | 0 <= i < k :: parse(lines[i]) == Some(Obj(objects[i]))
    requires |lines| == k || (|lines| == k + 1 && parse(lines[k]).None?)
    ensures Verdict(parse, lines) == Check(Obj(objects[0]), Objects(objects[1..k]))
  {
    var good := lines[..k];
    assert AllParse(parse, good);
    assert |lines| == k ==> good == lines;
    assert Values(parse, good)[1..] == Objects(objects[1..k]);
  }

  lemma CutReads(parse: Parser, objects: seq<Fields>, n: nat)
    requires Reads(parse, objects) && n <= |FileText(objects)| && Complete(objects, n) >= 1
    ensures Verdict(parse, NonBlank(Lines(FileText(objects)[..n]))) ==
            Check(Obj(objects[0]), Objects(objects[1..Complete(objects, n)]))
  {
    var lines := NonBlank(Lines(FileText(objects)[..n]));
    CutLines(objects, n);
    CutVerdict(parse, objects, n, lines);
    VerdictOfCut(parse, objects, lines, Complete(objects, n));
  }

  /** A session is a header and then records. */
  ghost predicate IsSession(objects: seq<Fields>) {
    objects != [] && Lookup(objects[0], "schema_version") == Some(Int(DATASET_SCHEMA))
  }

  /** A session cut anywhere after its header reads back as the header and exactly the records whose text
      was complete at the cut. */
  lemma CrashRecovers(parse: Parser, session: seq<Fields>, n: nat)
    requires IsSession(session) && Reads(parse, session)
    requires |Dump(Obj(session[0]))| <= n <= |FileText(session)|
    ensures var k := Complete(session, n);
            && k >= 1
            && Verdict(parse, NonBlank(Lines(FileText(session)[..n]))) ==
               Ok(session[0], Objects(session[1..k]), false)
  {
    HeaderIsComplete(session, n);
    CutReads(parse, session, n);
    CheckAccepts(session[0], Objects(session[1..Complete(session, n)]));
  }

  lemma HeaderIsComplete(objects: seq<Fields>, n: nat)
    requires objects != [] && |Dump(Obj(objects[0]))| <= n
    ensures Complete(objects, n) >= 1
  {
  }

  lemma CheckAccepts(header: Fields, records: seq<Json>)
    requires Lookup(header, "schema_version") == Some(Int(DATASET_SCHEMA))
    ensures Check(Obj(header), records) == Ok(header, records, false)
  {
  }

  /** So it reads back as a prefix of what was written, and as all of it if nothing was cut. */
  lemma PrefixSurvives(parse: Parser, session: seq<Fields>, n: nat) returns (kept: nat)
    requires IsSession(session) && Reads(parse, session)
    requires |Dump(Obj(session[0]))| <= n <= |FileText(session)|
    ensures kept <= |session[1..]|
    ensures Verdict(parse, NonBlank(Lines(FileText(session)[..n]))) ==
            Ok(session[0], Objects(session[1..][..kept]), false)
    ensures n == |FileText(session)| ==> kept == |session[1..]|
  {
    var k := Complete(session, n);
    assert k >= 1 && (n == |FileText(session)| ==> k == |session|) by {
      HeaderIsComplete(session, n);
      WholeIsComplete(session, n);
    }
    kept := k - 1;
    assert session[1..k] == session[1..][..kept];
    CrashRecovers(parse, session, n);
  }

  lemma WholeIsComplete(session: seq<Fields>, n: nat)
    ensures n >= |FileText(session)| ==> Complete(session, n) == |session|
  {
    CompleteIs(session, n);
    if Complete(session, n) < |session| {
      PrefixShorter(session, Complete(session, n) + 1);
    }
  }

  lemma {:induction false} PrefixShorter(objects: seq<Fields>, k: nat)
    requires k <= |objects|
    ensures |FileText(objects[..k])| <= |FileText(objects)|
  {
    if k > 0 {
      PrefixShorter(objects[1..], k - 1);
      assert objects[..k][1..] == objects[1..][..k - 1];
    }
  }

  // ---------- real damage ----------

  predicate Counts(line: string) { Strip(line) != "" }

  predicate Unreadable(parse: Parser, line: string) { Counts(line) && parse(Strip(line)).None? }

  ghost predicate Torn(parse: Parser, lines: seq<string>) { exists i | 0 <= i < |lines| :: Unreadable(parse, lines[i]) }

  /** Some unreadable line has a line that counts after it. */
  ghost predicate TornInside(parse: Parser, lines: seq<string>) {
    exists i, j | 0 <= i < j < |lines| :: Unreadable(parse, lines[i]) && Counts(lines[j])
  }

  lemma TornSnoc(parse: Parser, front: seq<string>, last: string)
    ensures Torn(parse, front + [last]) <==> Torn(parse, front) || Unreadable(parse, last)
    ensures TornInside(parse, front + [last]) <==> TornInside(parse, front) || (Torn(parse, front) && Counts(last))
    ensures TornInside(parse, front) ==> Torn(parse, front)
  {
    var lines := front + [last];
    assert lines[|front|] == last && forall i | 0 <= i < |front| :: lines[i] == front[i];
    if Torn(parse, front) {
      var i :| 0 <= i < |front| && Unreadable(parse, front[i]);
      assert Unreadable(parse, lines[i]);
      assert Counts(last) ==> TornInside(parse, lines) by { assert Counts(last) ==> Counts(lines[|front|]); }
    }
    if TornInside(parse, front) {
      var i, j :| 0 <= i < j < |front| && Unreadable(parse, front[i]) && Counts(front[j]);
      assert Unreadable(parse, lines[i]) && Counts(lines[j]);
    }
    if Unreadable(parse, last) {
      assert Unreadable(parse, lines[|front|]);
    }
  }

  lemma {:induction false} TornIsUnparsed(parse: Parser, lines: seq<string>)
    ensures AllParse(parse, NonBlank(lines)) <==> !Torn(parse, lines)
  {
    if lines != [] {
      var front, last := lines[..|lines| - 1], lines[|lines| - 1];
      TornIsUnparsed(parse, front);
      TornSnoc(parse, front, last);
      AllParseSnoc(parse, NonBlank(front), Strip(last));
      assert lines == front + [last];
    }
  }

  lemma VerdictSnoc(parse: Parser, a: seq<string>, x: string)
    ensures Verdict(parse, a + [x]) == Corrupt <==> !AllParse(parse, a)
  {
    assert (a + [x])[..|a|] == a;
  }

  lemma NonBlankSnoc(front: seq<string>, last: string)
    ensures NonBlank(front + [last]) == if Counts(last) then NonBlank(front) + [Strip(last)] else NonBlank(front)
  {
    assert (front + [last])[..|front|] == front;
  }

  ghost predicate CorruptIsTorn(parse: Parser, lines: seq<string>) {
    Verdict(parse, NonBlank(lines)) == Corrupt <==> TornInside(parse, lines)
  }

  lemma CorruptSnoc(parse: Parser, front: seq<string>, last: string)
    requires CorruptIsTorn(parse, front)
    ensures CorruptIsTorn(parse, front + [last])
  {
    NonBlankSnoc(front, last);
    TornSnoc(parse, front, last);
    if Counts(last) {
      TornIsUnparsed(parse, front);
      VerdictSnoc(parse, NonBlank(front), Strip(last));
    }
  }

  lemma {:induction false} CorruptUpTo(parse: Parser, lines: seq<string>, k: nat)
    requires k <= |lines|
    ensures CorruptIsTorn(parse, lines[..k])
  {
    if k > 0 {
      CorruptUpTo(parse, lines, k - 1);
      CorruptSnoc(parse, lines[..k - 1], lines[k - 1]);
      assert lines[..k] == lines[..k - 1] + [lines[k - 1]];
    }
  }

  /** An unreadable line is fatal exactly when another line that counts follows it. */
  lemma CorruptExactly(parse: Parser, lines: seq<string>)
    ensures Verdict(parse, NonBlank(lines)) == Corrupt <==> TornInside(parse, lines)
  {
    CorruptUpTo(parse, lines, |lines|);
    assert lines[..|lines|] == lines;
  }

  lemma AllParseSnoc(parse: Parser, a: seq<string>, x: string)
    ensures AllParse(parse, a + [x]) <==> AllParse(parse, a) && parse(x).Some?
    ensures a + [] == a
  {
    var b := a + [x];
    if AllParse(parse, b) {
      assert forall i | 0 <= i < |a| :: b[i] == a[i];
      assert parse(b[|a|]).Some?;
    }
  }
}
