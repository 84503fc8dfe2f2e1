/** Reading a JSON-lines session back, and what a crash in the middle of writing can cost. */
module Dataset {
  import opened Options
  import opened Json

  const MIN_COMPATIBLE := 1
  const DATASET_SCHEMA := 2

  // ---------- lines ----------

  predicate IsBreak(c: char) { c == '\n' || c == '\r' }

  predicate IsSpace(c: char) {
    var n := c as int;
    || 9 <= n <= 13 || 28 <= n <= 32 || n == 0x85 || n == 0xA0 || n == 0x1680 || 0x2000 <= n <= 0x200A
    || n == 0x2028 || n == 0x2029 || n == 0x202F || n == 0x205F || n == 0x3000
  }

  function LineEnd(text: string): (n: nat)
    ensures n <= |text| && (n < |text| ==> IsBreak(text[n])) && forall i | 0 <= i < n :: !IsBreak(text[i])
  {
    if text == "" || IsBreak(text[0]) then 0 else 1 + LineEnd(text[1..])
  }

  /** The lines of a text; the two characters of a carriage return and line feed end one line and one
      empty line, which readers skip. */
  function Lines(text: string): seq<string> {
    if text == "" then []
    else
      var n := LineEnd(text);
      [text[..n]] + (if n == |text| then [] else Lines(text[n + 1..]))
  }

  function LeftStrip(s: string): string { if s != "" && IsSpace(s[0]) then LeftStrip(s[1..]) else s }

  function RightStrip(s: string): string {
    if s != "" && IsSpace(s[|s| - 1]) then RightStrip(s[..|s| - 1]) else s
  }

  function Strip(s: string): string { RightStrip(LeftStrip(s)) }

  /** The lines that are not blank, stripped. */
  function NonBlank(lines: seq<string>): seq<string> {
    if lines == [] then []
    else
      NonBlank(lines[..|lines| - 1]) +
      if Strip(lines[|lines| - 1]) == "" then [] else [Strip(lines[|lines| - 1])]
  }

  // ---------- reading ----------

  datatype Loaded =
    | Ok(header: Fields, records: seq<Json>, older: bool)
    | Corrupt | NoRecords | EmptyFile | NotAnObject | Incompatible

  type Parser = string -> Option<Json>

  function Lookup(f: Fields, key: string): Option<Json> {
    match f
    case End => None
    case Field(k, value, rest) =>
      var later := Lookup(rest, key);
      if later.Some? then later else if k == key then Some(value) else None
  }

  /** A schema version as the comparison sees it: a boolean counts as zero or one. */
  function AsInt(j: Option<Json>): Option<int> {
    match j
    case Some(Int(n)) => Some(n)
    case Some(Bool(b)) => Some(if b then 1 else 0)
    case _ => None
  }

  function Check(header: Json, records: seq<Json>): Loaded {
    match header
    case Obj(fields) =>
      var version := AsInt(Lookup(fields, "schema_version"));
      if version.Some? && MIN_COMPATIBLE <= version.value <= DATASET_SCHEMA
      then Ok(fields, records, version.value < DATASET_SCHEMA)
      else Incompatible
    case _ => NotAnObject
  }

  /** The last of several fields of one name counts. */
  ghost predicate LastField(f: Fields, key: string, value: Json) {
    match f
    case End => false
    case Field(k, v, rest) => LastField(rest, key, value) || (k == key && v == value && !HasField(rest, key))
  }

  predicate HasField(f: Fields, key: string) {
    match f
    case End => false
    case Field(k, _, rest) => k == key || HasField(rest, key)
  }

  lemma {:induction false} LookupExactly(f: Fields, key: string, value: Json)
    ensures Lookup(f, key) == Some(value) <==> LastField(f, key, value)
    ensures Lookup(f, key).Some? <==> HasField(f, key)
  {
    match f
    case End =>
    case Field(_, _, rest) =>
      LookupExactly(rest, key, value);
  }

  /** A header is accepted exactly when it is an object whose schema version is 1 or 2, true standing for 1; records
      of version 1 are marked as older. */
  lemma CheckExactly(header: Json, records: seq<Json>)
    ensures var r := Check(header, records);
            && (r == NotAnObject <==> !header.Obj?)
            && (header.Obj? ==>
                  var version := Lookup(header.fields, "schema_version");
                  && (r == Ok(header.fields, records, true) <==>
                        version == Some(Json.Int(1)) || version == Some(Json.Bool(true)))
                  && (r == Ok(header.fields, records, false) <==> version == Some(Json.Int(2)))
                  && (r.Ok? || r == Incompatible))
  {
  }

  predicate AllParse(parse: Parser, lines: seq<string>) { forall i | 0 <= i < |lines| :: parse(lines[i]).Some? }

  function Values(parse: Parser, lines: seq<string>): seq<Json>
    requires AllParse(parse, lines)
  {
    seq(|lines|, i requires 0 <= i < |lines| => parse(lines[i]).value)
  }

  /** The reader takes a null for a header that is still missing, so leading nulls leave no trace. */
  function Started(values: seq<Json>): (r: seq<Json>)
    ensures r != [] ==> !r[0].Null?
  {
    if values != [] && values[0].Null? then Started(values[1..]) else values
  }

  lemma {:induction false} StartedMore(values: seq<Json>, j: Json)
    ensures Started(values + [j]) ==
            if Started(values) == [] then (if j.Null? then [] else [j]) else Started(values) + [j]
  {
    if values == [] {
      assert [] + [j] == [j] && [j][1..] == [];
    } else if values[0].Null? {
      assert (values + [j])[1..] == values[1..] + [j];
      StartedMore(values[1..], j);
    }
  }

  /** What a session of these readable lines is. */
  function Contents(parse: Parser, good: seq<string>): Loaded
    requires AllParse(parse, good)
  {
    var values := Started(Values(parse, good));
    if values == [] then NoRecords else Check(values[0], values[1..])
  }

  /** What a session with these non-blank lines is: only the last line may be torn. */
  function Verdict(parse: Parser, lines: seq<string>): Loaded {
    if lines == [] then EmptyFile
    else
      var front := lines[..|lines| - 1];
      var torn := parse(lines[|lines| - 1]).None?;
      if !AllParse(parse, front) then Corrupt
      else
        var good := if torn then front else lines;
        assert AllParse(parse, good);
        Contents(parse, good)
  }

  /** A header that is null is a header not seen yet. */
  method ReadJsonl(parse: Parser, lines: seq<string>) returns (r: Loaded)
    ensures r == Verdict(parse, NonBlank(lines))
  {
    var header := Null;
    var records: seq<Json> := [];
    var pending, sawAny := false, false;
    ghost var seen: seq<string> := [];
    for k := 0 to |lines|
      invariant seen == NonBlank(lines[..k])
      invariant Follows(parse, seen, header, records, pending, sawAny)
    {
      var line := Strip(lines[k]);
      NonBlankNext(lines, k);
      if line == "" {
        continue;
      }
      if pending {
        CorruptStays(parse, seen, line, lines, k);
        return Corrupt;
      }
      FollowsMore(parse, seen, header, records, line);
      seen := seen + [line];
      sawAny := true;
      var parsed := parse(line);
      if parsed.None? {
        pending := true;
      } else if header.Null? {
        header := parsed.value;
      } else {
        records := records + [parsed.value];
      }
    }
    assert lines[..|lines|] == lines;
    FollowsToTheEnd(parse, seen, header, records, pending, sawAny);
    if header.Null? {
      return if sawAny then NoRecords else EmptyFile;
    }
    r := Check(header, records);
  }

  lemma AllParseAfter(parse: Parser, line: string, lines: seq<string>)
    requires parse(line).Some?
    ensures AllParse(parse, [line] + lines) <==> AllParse(parse, lines)
  {
    assert forall i | 0 <= i < |lines| :: ([line] + lines)[i + 1] == lines[i];
  }

  lemma ContentsAfterNull(parse: Parser, line: string, good: seq<string>)
    requires parse(line) == Some(Null) && AllParse(parse, good) && AllParse(parse, [line] + good)
    ensures Contents(parse, [line] + good) == Contents(parse, good)
  {
    assert Values(parse, [line] + good)[1..] == Values(parse, good);
  }

  /** A line holding just null in front of a session is passed over. */
  lemma LeadingNullIsSkipped(parse: Parser, line: string, lines: seq<string>)
    requires parse(line) == Some(Null)
    ensures Verdict(parse, [line] + lines) == if lines == [] then NoRecords else Verdict(parse, lines)
  {
    var longer := [line] + lines;
    if lines == [] {
      assert longer[..0] == [] && longer == [line];
      ContentsAfterNull(parse, line, []);
    } else {
      var front := lines[..|lines| - 1];
      assert longer[..|longer| - 1] == [line] + front;
      AllParseAfter(parse, line, front);
      AllParseAfter(parse, line, lines);
      if AllParse(parse, front) {
        ContentsAfterNull(parse, line, if parse(lines[|lines| - 1]).None? then front else lines);
      }
    }
  }

  lemma NonBlankNext(lines: seq<string>, k: nat)
    requires k < |lines|
    ensures NonBlank(lines[..k + 1]) ==
            NonBlank(lines[..k]) + if Strip(lines[k]) == "" then [] else [Strip(lines[k])]
  {
    assert lines[..k + 1][..k] == lines[..k];
  }

  /** A blank line anywhere makes no difference. */
  lemma {:induction false} BlankLineIsSkipped(before: seq<string>, line: string, after: seq<string>)
    requires forall c | c in line :: IsSpace(c)
    ensures NonBlank(before + [line] + after) == NonBlank(before + after)
    decreases |after|
  {
    var long, short := before + [line] + after, before + after;
    if after == [] {
      BlankStrips(line);
      assert long[..|before|] == before && short == before;
    } else {
      var n := |after| - 1;
      BlankLineIsSkipped(before, line, after[..n]);
      assert long[..|long| - 1] == before + [line] + after[..n] && short[..|short| - 1] == before + after[..n];
    }
  }

  lemma {:induction false} BlankStrips(line: string)
    requires forall c | c in line :: IsSpace(c)
    ensures Strip(line) == ""
  {
    if line != "" {
      BlankStrips(line[1..]);
    }
  }

  lemma FollowsToTheEnd(parse: Parser, seen: seq<string>, header: Json, records: seq<Json>,
                        pending: bool, sawAny: bool)
    requires Follows(parse, seen, header, records, pending, sawAny)
    ensures Verdict(parse, seen) ==
            if header.Null? then (if sawAny then NoRecords else EmptyFile) else Check(header, records)
  {
    if seen != [] && !pending {
      assert parse(seen[|seen| - 1]).Some?;
    }
  }

  /** Header and records after these values. */
  predicate Split(values: seq<Json>, header: Json, records: seq<Json>) {
    if header.Null? then values == [] && records == [] else values == [header] + records
  }

  /** The variables of the loop after the non-blank lines seen so far. */
  ghost predicate Follows(parse: Parser, seen: seq<string>, header: Json, records: seq<Json>,
                          pending: bool, sawAny: bool)
  {
    && (sawAny <==> seen != []) && (pending ==> seen != [])
    && var good := if pending then seen[..|seen| - 1] else seen;
       && AllParse(parse, good) && (pending ==> parse(seen[|seen| - 1]).None?)
       && Split(Started(Values(parse, good)), header, records)
  }

  lemma FollowsMore(parse: Parser, seen: seq<string>, header: Json, records: seq<Json>, line: string)
    requires Follows(parse, seen, header, records, false, seen != [])
    ensures var j := parse(line);
            if j.None? then Follows(parse, seen + [line], header, records, true, true)
            else if header.Null? then Follows(parse, seen + [line], j.value, records, false, true)
            else Follows(parse, seen + [line], header, records + [j.value], false, true)
  {
    var longer := seen + [line];
    assert longer[..|longer| - 1] == seen;
    if parse(line).Some? {
      assert Values(parse, longer) == Values(parse, seen) + [parse(line).value];
      StartedMore(Values(parse, seen), parse(line).value);
      assert [header] + (records + [parse(line).value]) == [header] + records + [parse(line).value];
    }
  }

  /** Later lines cannot mend a torn line that is not the last. */
  lemma CorruptStays(parse: Parser, seen: seq<string>, line: string, lines: seq<string>, k: nat)
    requires k < |lines| && seen == NonBlank(lines[..k]) && line == Strip(lines[k]) && line != ""
    requires seen != [] && parse(seen[|seen| - 1]).None?
    ensures Verdict(parse, NonBlank(lines)) == Corrupt
  {
    NonBlankNext(lines, k);
    NonBlankGrows(lines, k + 1);
    TornIsCorrupt(parse, NonBlank(lines), |seen| - 1);
  }

  lemma TornIsCorrupt(parse: Parser, lines: seq<string>, i: nat)
    requires i + 1 < |lines| && parse(lines[i]).None?
    ensures Verdict(parse, lines) == Corrupt
  {
    assert lines[..|lines| - 1][i] == lines[i];
  }

  lemma {:induction false} NonBlankGrows(lines: seq<string>, k: nat)
    requires k <= |lines|
    ensures NonBlank(lines[..k]) <= NonBlank(lines)
  {
    if k < |lines| {
      NonBlankGrows(lines[..|lines| - 1], k);
      assert lines[..|lines| - 1][..k] == lines[..k];
    } else {
      assert lines[..k] == lines;
    }
  }
}
