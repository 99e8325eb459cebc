/**
 * The trace analysis script (script/vizzyviz.py). It parses a trace file
 * into an ordered dictionary keyed by the time of each event relative to
 * the first, and replays that dictionary either into a heap summary or
 * into a running heap-usage series.
 *
 * Times are whole microseconds (the script's float seconds plus the second
 * field divided by a million); the file arrives as its list of lines.
 */
module Vizzyviz {
  import opened Wrappers
  import opened Text
  import opened OrderedDict

  // ---------------------------------------------------------------------------
  // Parsing one line
  // ---------------------------------------------------------------------------

  /** The dictionary stored per event: the function name, the address, the size if any. */
  datatype Record = Record(operation: string, address: int, size: Option<int>)

  /** The exception a line raises: a field index past the end, or a field Python cannot convert. */
  datatype FieldError = MissingField(index: nat) | BadNumber(index: nat)

  /** The exception parsing a file raises, with the index of the offending line. */
  datatype LineError = LineError(line: nat, cause: FieldError)

  /** One parsed line: its absolute time and its record. */
  datatype Parsed = Parsed(time: int, record: Record)

  const MicrosPerSecond: int := 1_000_000

  /** `line.strip().split(',')`. */
  function Fields(line: string): (e: seq<string>)
    ensures |e| >= 1
  {
    Split(Strip(line), ',')
  }

  /** Python's int(text, base), which ignores surrounding whitespace. */
  function PyInt(text: string, base: nat): Option<int>
  {
    ParseInt(Strip(text), base)
  }

  /**
   * One line of the trace, converted field by field in the script's order:
   * seconds, sub-second part, function name, hexadecimal address, then the
   * size, which is absent when the fifth field is empty.
   */
  function ParseLine(line: string): Result<Parsed, FieldError>
  {
    var e := Fields(line);
    match PyInt(e[0], 10)
    case None => Err(BadNumber(0))
    case Some(seconds) =>
      if |e| < 2 then Err(MissingField(1))
      else match PyInt(e[1], 10)
      case None => Err(BadNumber(1))
      case Some(micros) =>
        var time := seconds * MicrosPerSecond + micros;
        if |e| < 3 then Err(MissingField(2))
        else if |e| < 4 then Err(MissingField(3))
        else match PyInt(e[3], 16)
        case None => Err(BadNumber(3))
        case Some(address) =>
          if |e| < 5 then Err(MissingField(4))
          else if e[4] == "" then Ok(Parsed(time, Record(e[2], address, None)))
          else match PyInt(e[4], 10)
          case None => Err(BadNumber(4))
          case Some(size) => Ok(Parsed(time, Record(e[2], address, Some(size))))
  }

  /**
   * What a parsed line holds, field by field, and which exceptions a line
   * can raise: a missing field is the first index past the end.
   */
  lemma ParseLineFields(line: string)
    ensures var r := ParseLine(line);
      && (r.Ok? ==> |Fields(line)| >= 5 && r.value.record.operation == Fields(line)[2])
      && (r.Ok? ==> PyInt(Fields(line)[3], 16) == Some(r.value.record.address))
      && (r.Ok? ==> (r.value.record.size.None? <==> Fields(line)[4] == ""))
      && (r.Ok? && r.value.record.size.Some? ==> PyInt(Fields(line)[4], 10) == r.value.record.size)
      && (r.Err? && r.error.MissingField? ==> 1 <= r.error.index == |Fields(line)| <= 4)
      && (r.Err? && r.error.BadNumber? ==> r.error.index in {0, 1, 3, 4})
      && (r.Ok? ==>
            && PyInt(Fields(line)[0], 10).Some? && PyInt(Fields(line)[1], 10).Some?
            && r.value.time == PyInt(Fields(line)[0], 10).value * MicrosPerSecond + PyInt(Fields(line)[1], 10).value)
  {
  }

  /**
   * Which exception a line raises, exactly: the first field, in the
   * script's order, that is missing or that Python cannot convert, after
   * every earlier field converted.
   */
  lemma ParseLineRaises(line: string)
    ensures var e := Fields(line); var r := ParseLine(line);
      var seconds := PyInt(e[0], 10);
      var micros := if |e| >= 2 then PyInt(e[1], 10) else None;
      var address := if |e| >= 4 then PyInt(e[3], 16) else None;
      && (r == Err(BadNumber(0)) <==> seconds.None?)
      && (r == Err(MissingField(1)) <==> seconds.Some? && |e| == 1)
      && (r == Err(BadNumber(1)) <==> seconds.Some? && |e| >= 2 && micros.None?)
      && (r == Err(MissingField(2)) <==> seconds.Some? && micros.Some? && |e| == 2)
      && (r == Err(MissingField(3)) <==> seconds.Some? && micros.Some? && |e| == 3)
      && (r == Err(BadNumber(3)) <==> seconds.Some? && micros.Some? && |e| >= 4 && address.None?)
      && (r == Err(MissingField(4)) <==> seconds.Some? && micros.Some? && address.Some? && |e| == 4)
      && (r == Err(BadNumber(4)) <==>
            seconds.Some? && micros.Some? && address.Some? && |e| >= 5 && e[4] != "" && PyInt(e[4], 10).None?)
  {
  }

  /** The text of a size field: empty for none, decimal otherwise. */
  function SizeText(size: Option<nat>): string
  {
    if size.None? then "" else Dec(size.value)
  }

  /** A line in the five-field layout the script reads. */
  function TraceLine(seconds: nat, micros: nat, operation: string, address: nat, size: Option<nat>): string
  {
    Join([Dec(seconds), Dec(micros), operation, "0x" + Hex(address), SizeText(size)], ',') + "\n"
  }

  lemma DigitsHaveNoComma(s: string)
    requires IsDigitString(s)
    ensures ',' !in s
  {
    forall i | 0 <= i < |s|
      ensures s[i] != ','
    {
      DigitIsPlain(s[i]);
    }
  }

  /** A run of digits is left alone by strip. */
  lemma StripDigits(s: string)
    requires |s| > 0 && IsDigitString(s)
    ensures Strip(s) == s
  {
    DigitIsPlain(s[0]);
    DigitIsPlain(s[|s| - 1]);
    LStripKeeps(s);
    RStripKeepsAll(s);
  }

  /** The five-field layout splits back into its five fields. */
  lemma TraceLineFields(seconds: nat, micros: nat, operation: string, address: nat, size: Option<nat>)
    requires ',' !in operation
    ensures Fields(TraceLine(seconds, micros, operation, address, size))
         == [Dec(seconds), Dec(micros), operation, "0x" + Hex(address), SizeText(size)]
  {
    var hex := "0x" + Hex(address);
    var parts := [Dec(seconds), Dec(micros), operation, hex, SizeText(size)];
    var body := Join(parts, ',');
    DecIsDigits(seconds);
    DecIsDigits(micros);
    HexIsDigits(address);
    DigitsHaveNoComma(Dec(seconds));
    DigitsHaveNoComma(Dec(micros));
    DigitsHaveNoComma(Hex(address));
    assert ',' !in hex by {
      assert hex == "0x" + Hex(address);
    }
    if size.Some? {
      DecIsDigits(size.value);
      DigitsHaveNoComma(Dec(size.value));
    }
    JoinSplit(parts, ',');
    // The line starts with a digit and ends in a digit or a comma before its newline.
    assert body == Dec(seconds) + [','] + Join(parts[1..], ',');
    assert body[0] == Dec(seconds)[0];
    DigitIsPlain(Dec(seconds)[0]);
    assert Join(parts[3..], ',') == hex + [','] + SizeText(size);
    assert body[|body| - 1] == (if size.None? then ',' else Dec(size.value)[|Dec(size.value)| - 1]) by {
      assert Join(parts[1..], ',') == Dec(micros) + [','] + Join(parts[2..], ',');
      assert Join(parts[2..], ',') == operation + [','] + Join(parts[3..], ',');
    }
    if size.Some? {
      DigitIsPlain(Dec(size.value)[|Dec(size.value)| - 1]);
    }
    StripNewline(body);
  }

  /** The five-field layout parses back to the values it was written from. */
  lemma TraceLineRoundTrip(seconds: nat, micros: nat, operation: string, address: nat, size: Option<nat>)
    requires ',' !in operation
    ensures ParseLine(TraceLine(seconds, micros, operation, address, size))
         == Ok(Parsed(seconds * MicrosPerSecond + micros, Record(operation, address, size)))
  {
    TraceLineFields(seconds, micros, operation, address, size);
    DecIsDigits(seconds);
    DecIsDigits(micros);
    HexIsDigits(address);
    StripDigits(Dec(seconds));
    DecRoundTrip(seconds);
    StripDigits(Dec(micros));
    DecRoundTrip(micros);
    var hex := "0x" + Hex(address);
    assert Strip(hex) == hex by {
      DigitIsPlain(Hex(address)[|Hex(address)| - 1]);
      assert hex[|hex| - 1] == Hex(address)[|Hex(address)| - 1];
      LStripKeeps(hex);
      RStripKeepsAll(hex);
    }
    HexRoundTrip(address);
    if size.Some? {
      DecIsDigits(size.value);
      StripDigits(Dec(size.value));
      DecRoundTrip(size.value);
    }
  }

  // ---------------------------------------------------------------------------
  // Parsing a file
  // ---------------------------------------------------------------------------

  /**
   * The values of the first n line results, in order, or the first failure
   * with its index: later lines are never looked at once one fails.
   */
  function Collect(rs: seq<Result<Parsed, FieldError>>, n: nat): (r: Result<seq<Parsed>, LineError>)
    requires n <= |rs|
    ensures r.Ok? ==> |r.value| == n
  {
    if n == 0 then Ok([])
    else
      match Collect(rs, n - 1)
      case Err(e) => Err(e)
      case Ok(ps) =>
        match rs[n - 1]
        case Err(cause) => Err(LineError(n - 1, cause))
        case Ok(p) => Ok(ps + [p])
  }

  /** Collecting succeeds exactly when every result does, and otherwise reports the first failure. */
  lemma {:induction false} CollectFirstFailure(rs: seq<Result<Parsed, FieldError>>, n: nat)
    requires n <= |rs|
    ensures Collect(rs, n).Ok? <==> forall i :: 0 <= i < n ==> rs[i].Ok?
    ensures Collect(rs, n).Ok? ==> forall i :: 0 <= i < n ==> rs[i] == Ok(Collect(rs, n).value[i])
    ensures Collect(rs, n).Err? ==>
      var e := Collect(rs, n).error;
      && e.line < n
      && rs[e.line] == Err(e.cause)
      && forall i :: 0 <= i < e.line ==> rs[i].Ok?
  {
    if n > 0 {
      CollectFirstFailure(rs, n - 1);
    }
  }

  /** A failure at index i, after i successes, is the failure of every longer run. */
  lemma {:induction false} CollectFailsFirst(rs: seq<Result<Parsed, FieldError>>, i: nat, n: nat)
    requires i < n <= |rs| && rs[i].Err? && Collect(rs, i).Ok?
    ensures Collect(rs, n) == Err(LineError(i, rs[i].error))
  {
    if n > i + 1 {
      CollectFailsFirst(rs, i, n - 1);
    }
  }

  /** Every line of a file, parsed on its own. */
  function ParseEach(lines: seq<string>): (rs: seq<Result<Parsed, FieldError>>)
    ensures ParsedFrom(rs, lines)
  {
    seq(|lines|, i requires 0 <= i < |lines| => ParseLine(lines[i]))
  }

  /** rs holds what parsing each of the lines gives. */
  ghost predicate ParsedFrom(rs: seq<Result<Parsed, FieldError>>, lines: seq<string>)
  {
    |rs| == |lines| && forall i {:trigger rs[i], lines[i]} :: 0 <= i < |lines| ==> rs[i] == ParseLine(lines[i])
  }

  /** The key of the i-th parsed line: 0 for the first, its time less the first's after that. */
  function KeyOf(ps: seq<Parsed>, i: nat): int
    requires i < |ps|
  {
    if i == 0 then 0 else ps[i].time - ps[0].time
  }

  /** The dictionary after storing the first n parsed lines, each under its key. */
  function Keyed(ps: seq<Parsed>, n: nat): ODict<int, Record>
    requires n <= |ps|
  {
    if n == 0 then Empty()
    else Keyed(ps, n - 1).Set(KeyOf(ps, n - 1), ps[n - 1].record)
  }

  /** The keyed dictionary is well formed and holds no more keys than lines stored. */
  lemma {:induction false} KeyedValid(ps: seq<Parsed>, n: nat)
    requires n <= |ps|
    ensures Keyed(ps, n).Valid() && |Keyed(ps, n).keys| <= n
  {
    if n > 0 {
      KeyedValid(ps, n - 1);
      SetOrder(Keyed(ps, n - 1), KeyOf(ps, n - 1), ps[n - 1].record);
    }
  }

  /** What parsing a file gives: the keyed dictionary, or the first line's exception. */
  function Dataset(lines: seq<string>): Result<ODict<int, Record>, LineError>
  {
    Load(ParseEach(lines))
  }

  /** The keyed dictionary of a run of line results, or the first failure. */
  function Load(rs: seq<Result<Parsed, FieldError>>): Result<ODict<int, Record>, LineError>
  {
    match Collect(rs, |rs|)
    case Err(e) => Err(e)
    case Ok(ps) => Ok(Keyed(ps, |ps|))
  }

  /** `parse_vizzy_file`, over the lines of the file. */
  method ParseVizzyFile(lines: seq<string>) returns (r: Result<ODict<int, Record>, LineError>)
    ensures r == Dataset(lines)
  {
    r := StoreLines(lines, ParseEach(lines));
  }

  /**
   * The loop of `parse_vizzy_file`: each line in turn is parsed, then stored
   * under its time relative to the first line's; rs names what parsing
   * the lines gives.
   */
  method StoreLines(lines: seq<string>, ghost rs: seq<Result<Parsed, FieldError>>) returns (r: Result<ODict<int, Record>, LineError>)
    requires ParsedFrom(rs, lines)
    ensures r == Load(rs)
  {
    var dataset := Empty<int, Record>();
    var firstLine := true;
    var startTime := 0;
    ghost var ps: seq<Parsed> := [];
    var i := 0;
    while i < |lines|
      invariant 0 <= i <= |lines| && |ps| == i
      invariant Collect(rs, i) == Ok(ps)
      invariant firstLine <==> i == 0
      invariant !firstLine ==> startTime == ps[0].time
      invariant dataset == Keyed(ps, i)
    {
      var parsed := ParseAt(lines, i, rs);
      if parsed.Err? {
        CollectFailsFirst(rs, i, |lines|);
        return Err(LineError(i, parsed.error));
      }
      dataset, firstLine, startTime := StoreLine(dataset, firstLine, startTime, parsed.value, ps);
      ps := ps + [parsed.value];
      i := i + 1;
    }
    return Ok(dataset);
  }

  /** The start of one pass of `parse_vizzy_file`'s loop: strip, split and convert line i. */
  method ParseAt(lines: seq<string>, i: nat, ghost rs: seq<Result<Parsed, FieldError>>) returns (parsed: Result<Parsed, FieldError>)
    requires i < |lines| && ParsedFrom(rs, lines)
    ensures parsed == rs[i]
  {
    parsed := ParseLine(lines[i]);
  }

  /**
   * The rest of one pass of `parse_vizzy_file`'s loop: the first line fixes
   * the start time and is stored under 0, every later line under its time
   * less the start time.
   */
  method StoreLine(dataset: ODict<int, Record>, firstLine: bool, startTime: int, p: Parsed, ghost ps: seq<Parsed>)
    returns (dataset': ODict<int, Record>, firstLine': bool, startTime': int)
    requires firstLine <==> |ps| == 0
    requires !firstLine ==> startTime == ps[0].time
    requires dataset == Keyed(ps, |ps|)
    ensures !firstLine' && startTime' == (ps + [p])[0].time
    ensures dataset' == Keyed(ps + [p], |ps| + 1)
  {
    var relTime := 0;
    firstLine', startTime' := firstLine, startTime;
    if firstLine {
      startTime' := p.time;
      firstLine' := false;
    } else {
      relTime := p.time - startTime;
    }
    var qs := ps + [p];
    KeyedPrefix(qs, ps, |ps|);
    assert qs[|ps|] == p;
    assert KeyOf(qs, |ps|) == relTime;
    dataset' := dataset.Set(relTime, p.record);
  }

  /** Keying depends only on the lines stored so far. */
  lemma {:induction false} KeyedPrefix(ps: seq<Parsed>, qs: seq<Parsed>, n: nat)
    requires n <= |qs| <= |ps| && qs == ps[..|qs|]
    ensures Keyed(ps, n) == Keyed(qs, n)
    decreases n
  {
    if n > 0 {
      KeyedPrefix(ps, qs, n - 1);
      assert KeyOf(ps, n - 1) == KeyOf(qs, n - 1);
    }
  }

  /** The first line is stored under key 0, and that key stays first in the order. */
  lemma {:induction false} KeyedFirst(ps: seq<Parsed>, n: nat)
    requires 1 <= n <= |ps|
    ensures |Keyed(ps, n).keys| >= 1 && Keyed(ps, n).keys[0] == 0 && 0 in Keyed(ps, n).values
    decreases n
  {
    if n > 1 {
      KeyedFirst(ps, n - 1);
      KeyedValid(ps, n - 1);
      SetOrder(Keyed(ps, n - 1), KeyOf(ps, n - 1), ps[n - 1].record);
    }
  }

  /** A stored line's key holds its record unless a later stored line has the same key. */
  lemma {:induction false} KeyedLastWins(ps: seq<Parsed>, n: nat, i: nat)
    requires i < n <= |ps|
    requires forall j :: i < j < n ==> KeyOf(ps, j) != KeyOf(ps, i)
    ensures KeyOf(ps, i) in Keyed(ps, n).values && Keyed(ps, n).values[KeyOf(ps, i)] == ps[i].record
    decreases n
  {
    if i < n - 1 {
      KeyedLastWins(ps, n - 1, i);
    }
  }

  /** Every key of the dictionary is the key of some stored line. */
  lemma {:induction false} KeyedOnlyStored(ps: seq<Parsed>, n: nat, k: int)
    requires n <= |ps| && k in Keyed(ps, n).values
    ensures exists i :: 0 <= i < n && KeyOf(ps, i) == k
    decreases n
  {
    if KeyOf(ps, n - 1) != k {
      KeyedOnlyStored(ps, n - 1, k);
    }
  }

  // ---------------------------------------------------------------------------
  // Replaying the dataset
  // ---------------------------------------------------------------------------

  /** The records of a dataset in the order `items()` visits them. */
  function Items(d: ODict<int, Record>): (recs: seq<Record>)
    requires d.Valid()
    ensures |recs| == |d.keys|
  {
    assert forall i :: 0 <= i < |d.keys| ==> d.keys[i] in d.values;
    seq(|d.keys|, i requires 0 <= i < |d.keys| => d.values[d.keys[i]])
  }

  /** A record the replay treats as a free; every other function name counts as an allocation. */
  predicate IsFree(rec: Record)
  {
    rec.operation == "free"
  }

  /** An allocation without a size: adding its size raises TypeError. */
  predicate LacksSize(rec: Record)
  {
    !IsFree(rec) && rec.size.None?
  }

  /** The exception a replay raises, with the index of the record. */
  datatype ReplayError = SizeMissing(index: nat)

  /** The number of allocation records among the first n. */
  function AllocCount(recs: seq<Record>, n: nat): (c: nat)
    requires n <= |recs|
    ensures c <= n
  {
    if n == 0 then 0
    else AllocCount(recs, n - 1) + (if IsFree(recs[n - 1]) then 0 else 1)
  }

  /** The sum of the sizes of the allocation records among the first n. */
  function SizeTotal(recs: seq<Record>, n: nat): int
    requires n <= |recs|
  {
    if n == 0 then 0
    else
      var rec := recs[n - 1];
      SizeTotal(recs, n - 1) + (if IsFree(rec) || rec.size.None? then 0 else rec.size.value)
  }

  /** The index of the last of the first n records that names the address, if any. */
  function LastTouch(recs: seq<Record>, n: nat, a: int): (r: Option<nat>)
    requires n <= |recs|
    ensures r.Some? ==> r.value < n && recs[r.value].address == a
    ensures r.Some? ==> forall j :: r.value < j < n ==> recs[j].address != a
    ensures r.None? ==> forall j :: 0 <= j < n ==> recs[j].address != a
  {
    if n == 0 then None
    else if recs[n - 1].address == a then Some(n - 1)
    else LastTouch(recs, n - 1, a)
  }

  /** The state of `heap_summary`'s first loop. */
  datatype Tally = Tally(allocnum: nat, freenum: nat, allocs: ODict<int, int>, totalBytes: int, doubleFrees: seq<int>)

  /** One pass of `heap_summary`'s first loop, on the record at the given index. */
  function TallyStep(t: Tally, rec: Record, index: nat): (r: Result<Tally, ReplayError>)
    ensures r.Ok? <==> !LacksSize(rec)
    ensures r.Err? ==> r.error == SizeMissing(index)
  {
    if IsFree(rec) then
      if rec.address in t.allocs.values then
        Ok(t.(freenum := t.freenum + 1, allocs := t.allocs.Delete(rec.address)))
      else
        Ok(t.(freenum := t.freenum + 1, doubleFrees := t.doubleFrees + [rec.address]))
    else if rec.size.None? then Err(SizeMissing(index))
    else
      Ok(t.(allocnum := t.allocnum + 1, totalBytes := t.totalBytes + rec.size.value,
            allocs := t.allocs.Set(rec.address, rec.size.value)))
  }

  /** `heap_summary`'s first loop over the first n records, or the record whose size is missing. */
  function TallyOf(recs: seq<Record>, n: nat): Result<Tally, ReplayError>
    requires n <= |recs|
  {
    if n == 0 then Ok(Tally(0, 0, Empty(), 0, []))
    else
      match TallyOf(recs, n - 1)
      case Err(e) => Err(e)
      case Ok(t) => TallyStep(t, recs[n - 1], n - 1)
  }

  /**
   * The counters of the replay: allocations and frees partition the
   * records, the bytes allocated are the sizes of the allocations, and no
   * more blocks are live than were allocated.
   */
  lemma {:induction false} TallyCounts(recs: seq<Record>, n: nat)
    requires n <= |recs| && TallyOf(recs, n).Ok?
    ensures var t := TallyOf(recs, n).value;
      && t.allocs.Valid()
      && t.allocnum == AllocCount(recs, n) && t.freenum == n - AllocCount(recs, n)
      && t.totalBytes == SizeTotal(recs, n)
      && |t.allocs.keys| <= t.allocnum
  {
    if n > 0 {
      TallyCounts(recs, n - 1);
      var t := TallyOf(recs, n - 1).value;
      var rec := recs[n - 1];
      if IsFree(rec) && rec.address in t.allocs.values {
        DeleteOrder(t.allocs, rec.address);
      } else if !IsFree(rec) {
        SetOrder(t.allocs, rec.address, rec.size.value);
      }
    }
  }

  /** The replay raises exactly when an allocation lacks its size, and then at the first such record. */
  lemma {:induction false} TallyError(recs: seq<Record>, n: nat)
    requires n <= |recs|
    ensures TallyOf(recs, n).Ok? <==> forall i :: 0 <= i < n ==> !LacksSize(recs[i])
    ensures TallyOf(recs, n).Err? ==>
      var k := TallyOf(recs, n).error.index;
      && k < n && LacksSize(recs[k])
      && forall i :: 0 <= i < k ==> !LacksSize(recs[i])
  {
    if n > 0 {
      TallyError(recs, n - 1);
    }
  }

  /** A missing size at index i, after i good records, is the exception of every longer replay. */
  lemma TallyFailsFirst(recs: seq<Record>, i: nat, n: nat)
    requires i < n <= |recs| && LacksSize(recs[i]) && TallyOf(recs, i).Ok?
    ensures TallyOf(recs, n) == Err(SizeMissing(i))
  {
    TallyError(recs, i);
    TallyError(recs, n);
  }

  /** A free of a live address removes exactly it; any other free reports a double free and changes no block. */
  lemma TallyFree(recs: seq<Record>, n: nat)
    requires n < |recs| && IsFree(recs[n]) && TallyOf(recs, n).Ok?
    ensures var t := TallyOf(recs, n).value; var u := TallyOf(recs, n + 1); var a := recs[n].address;
      && u.Ok?
      && u.value.freenum == t.freenum + 1 && u.value.allocnum == t.allocnum
      && (a in t.allocs.values ==>
            && u.value.allocs.values == t.allocs.values - {a}
            && u.value.allocs.keys == Without(t.allocs.keys, a)
            && u.value.doubleFrees == t.doubleFrees)
      && (a !in t.allocs.values ==>
            && u.value.allocs == t.allocs
            && u.value.doubleFrees == t.doubleFrees + [a])
  {
    TallyCounts(recs, n);
    var t := TallyOf(recs, n).value;
    if recs[n].address in t.allocs.values {
      DeleteOrder(t.allocs, recs[n].address);
    }
  }

  /**
   * The blocks live after a replay are the addresses whose last record is an
   * allocation, each with the size that record gave.
   */
  lemma {:induction false} LiveIsLastTouch(recs: seq<Record>, n: nat, a: int)
    requires n <= |recs| && TallyOf(recs, n).Ok?
    ensures var allocs := TallyOf(recs, n).value.allocs; var last := LastTouch(recs, n, a);
      && (a in allocs.values <==> last.Some? && !IsFree(recs[last.value]))
      && (a in allocs.values ==> Some(allocs.values[a]) == recs[last.value].size)
  {
    if n > 0 {
      LiveIsLastTouch(recs, n - 1, a);
    }
  }

  /** Every key of an ordered dictionary, and of any prefix of its order, has a value. */
  lemma KeysListed(d: ODict<int, int>, j: nat)
    requires d.Valid() && j <= |d.keys|
    ensures Listed(d.keys[..j], d.values)
  {
    assert forall i :: 0 <= i < j ==> d.keys[..j][i] == d.keys[i];
  }

  /** The figures `heap_summary` reports. */
  datatype Summary = Summary(inUseBytes: int, inUseBlocks: nat, allocnum: nat, freenum: nat,
                             totalBytes: int, doubleFrees: seq<int>)

  /**
   * `heap_summary`: the report, with the double frees it warns about in the
   * order it warns; an allocation without a size raises.
   */
  method HeapSummary(dataset: ODict<int, Record>) returns (r: Result<Summary, ReplayError>)
    requires dataset.Valid()
    ensures var replay := TallyOf(Items(dataset), |dataset.keys|);
      && (replay.Err? ==> r == Err(replay.error))
      && (replay.Ok? ==>
            var t := replay.value;
            r == Ok(Summary(Total(t.allocs), |t.allocs.keys|, t.allocnum, t.freenum, t.totalBytes, t.doubleFrees)))
  {
    var tally := CountEvents(dataset);
    if tally.Err? {
      return Err(tally.error);
    }
    var t := tally.value;
    TallyCounts(Items(dataset), |dataset.keys|);
    var inUseBytes, inUseBlocks := InUse(t.allocs);
    return Ok(Summary(inUseBytes, inUseBlocks, t.allocnum, t.freenum, t.totalBytes, t.doubleFrees));
  }

  /** `heap_summary`'s first loop: count the events and replay them against `allocs`. */
  method CountEvents(dataset: ODict<int, Record>) returns (r: Result<Tally, ReplayError>)
    requires dataset.Valid()
    ensures r == TallyOf(Items(dataset), |dataset.keys|)
  {
    ghost var recs := Items(dataset);
    var allocnum := 0;
    var freenum := 0;
    var allocs := Empty<int, int>();
    var totalBytes := 0;
    var doubleFrees := [];
    var i := 0;
    while i < |dataset.keys|
      invariant 0 <= i <= |dataset.keys|
      invariant TallyOf(recs, i) == Ok(Tally(allocnum, freenum, allocs, totalBytes, doubleFrees))
    {
      var data := dataset.values[dataset.keys[i]];
      assert recs[i] == data;
      var missing;
      allocnum, freenum, allocs, totalBytes, doubleFrees, missing :=
        CountRecord(allocnum, freenum, allocs, totalBytes, doubleFrees, data, i);
      if missing {
        TallyFailsFirst(recs, i, |recs|);
        return Err(SizeMissing(i));
      }
      i := i + 1;
    }
    return Ok(Tally(allocnum, freenum, allocs, totalBytes, doubleFrees));
  }

  /**
   * The body of `heap_summary`'s first loop on one record; missing tells
   * that the record is an allocation whose size the addition rejects.
   */
  method CountRecord(allocnum: nat, freenum: nat, allocs: ODict<int, int>, totalBytes: int, doubleFrees: seq<int>,
                     data: Record, ghost index: nat)
    returns (allocnum': nat, freenum': nat, allocs': ODict<int, int>, totalBytes': int, doubleFrees': seq<int>, missing: bool)
    ensures missing <==> LacksSize(data)
    ensures !missing ==>
      TallyStep(Tally(allocnum, freenum, allocs, totalBytes, doubleFrees), data, index)
        == Ok(Tally(allocnum', freenum', allocs', totalBytes', doubleFrees'))
  {
    allocnum', freenum', allocs', totalBytes', doubleFrees', missing := allocnum, freenum, allocs, totalBytes, doubleFrees, false;
    if data.operation == "free" {
      freenum' := freenum + 1;
      if data.address in allocs.values {
        allocs' := allocs.Delete(data.address);
      } else {
        doubleFrees' := doubleFrees + [data.address];
      }
    } else {
      allocnum' := allocnum + 1;
      if data.size.None? {
        missing := true;
        return;
      }
      totalBytes' := totalBytes + data.size.value;
      allocs' := allocs.Set(data.address, data.size.value);
    }
  }

  /** `heap_summary`'s second loop: the bytes and the number of the live blocks. */
  method InUse(allocs: ODict<int, int>) returns (inUseBytes: int, inUseBlocks: nat)
    requires allocs.Valid()
    ensures inUseBytes == Total(allocs) && inUseBlocks == |allocs.keys|
  {
    inUseBytes := 0;
    inUseBlocks := 0;
    var j := 0;
    KeysListed(allocs, 0);
    while j < |allocs.keys|
      invariant 0 <= j <= |allocs.keys|
      invariant inUseBlocks == j
      invariant Listed(allocs.keys[..j], allocs.values) && inUseBytes == SumOver(allocs.keys[..j], allocs.values)
    {
      KeysListed(allocs, j + 1);
      assert allocs.keys[..j + 1] == allocs.keys[..j] + [allocs.keys[j]];
      SumOverAppend(allocs.keys[..j], allocs.keys[j], allocs.values);
      inUseBlocks := inUseBlocks + 1;
      inUseBytes := inUseBytes + allocs.values[allocs.keys[j]];
      j := j + 1;
    }
    assert allocs.keys[..j] == allocs.keys;
  }

  /**
   * The report's counting facts: every record is an allocation or a free,
   * the live blocks are no more than the allocations, and the bytes
   * allocated are the sizes of the allocation records.
   */
  lemma SummaryCounts(dataset: ODict<int, Record>)
    requires dataset.Valid() && TallyOf(Items(dataset), |dataset.keys|).Ok?
    ensures var t := TallyOf(Items(dataset), |dataset.keys|).value;
      && t.allocnum + t.freenum == |dataset.keys|
      && |t.allocs.keys| <= t.allocnum
      && t.totalBytes == SizeTotal(Items(dataset), |dataset.keys|)
  {
    TallyCounts(Items(dataset), |dataset.keys|);
  }

  // ---------------------------------------------------------------------------
  // The usage series
  // ---------------------------------------------------------------------------

  /** The state of `viz_heap_usage_over_time`'s loop: live blocks, current usage, samples. */
  datatype Usage = Usage(current: ODict<int, int>, usage: int, series: seq<int>)

  /**
   * One pass of `viz_heap_usage_over_time`'s loop as written: a matched free
   * subtracts the stored size, an unmatched one changes nothing, and an
   * allocation adds its size, whether or not its address is already live.
   * Every pass takes one sample.
   */
  function UsageStep(u: Usage, rec: Record, index: nat): (r: Result<Usage, ReplayError>)
    ensures r.Ok? <==> !LacksSize(rec)
    ensures r.Err? ==> r.error == SizeMissing(index)
    ensures r.Ok? ==> r.value.series == u.series + [r.value.usage]
  {
    if IsFree(rec) then
      if rec.address in u.current.values then
        var usage := u.usage - u.current.values[rec.address];
        Ok(Usage(u.current.Delete(rec.address), usage, u.series + [usage]))
      else
        Ok(u.(series := u.series + [u.usage]))
    else if rec.size.None? then Err(SizeMissing(index))
    else
      var usage := u.usage + rec.size.value;
      Ok(Usage(u.current.Set(rec.address, rec.size.value), usage, u.series + [usage]))
  }

  /** `viz_heap_usage_over_time`'s loop over the first n records: one sample per record. */
  function UsageOf(recs: seq<Record>, n: nat): (r: Result<Usage, ReplayError>)
    requires n <= |recs|
    ensures r.Ok? ==> |r.value.series| == n
    ensures r.Ok? && n > 0 ==> r.value.series[n - 1] == r.value.usage
  {
    if n == 0 then Ok(Usage(Empty(), 0, []))
    else
      match UsageOf(recs, n - 1)
      case Err(e) => Err(e)
      case Ok(u) => UsageStep(u, recs[n - 1], n - 1)
  }

  /** The series raises exactly when an allocation lacks its size, and then at the first such record. */
  lemma {:induction false} UsageError(recs: seq<Record>, n: nat)
    requires n <= |recs|
    ensures UsageOf(recs, n).Ok? <==> forall i :: 0 <= i < n ==> !LacksSize(recs[i])
    ensures UsageOf(recs, n).Err? ==>
      var k := UsageOf(recs, n).error.index;
      && k < n && LacksSize(recs[k])
      && forall i :: 0 <= i < k ==> !LacksSize(recs[i])
  {
    if n > 0 {
      UsageError(recs, n - 1);
    }
  }

  /** A missing size at index i, after i good records, is the exception of every longer series. */
  lemma UsageFailsFirst(recs: seq<Record>, i: nat, n: nat)
    requires i < n <= |recs| && LacksSize(recs[i]) && UsageOf(recs, i).Ok?
    ensures UsageOf(recs, n) == Err(SizeMissing(i))
  {
    UsageError(recs, i);
    UsageError(recs, n);
  }

  /** Each sample is the usage after the records up to and including its own. */
  lemma {:induction false} UsageSamples(recs: seq<Record>, n: nat, i: nat)
    requires i < n <= |recs| && UsageOf(recs, n).Ok?
    ensures UsageOf(recs, i + 1).Ok?
    ensures UsageOf(recs, n).value.series[i] == UsageOf(recs, i + 1).value.usage
  {
    if i < n - 1 {
      UsageSamples(recs, n - 1, i);
    }
  }

  /** An unmatched free keeps the usage; a matched free subtracts the size stored for its address. */
  lemma UsageFree(recs: seq<Record>, n: nat)
    requires n < |recs| && IsFree(recs[n]) && UsageOf(recs, n).Ok?
    ensures var u := UsageOf(recs, n).value; var v := UsageOf(recs, n + 1); var a := recs[n].address;
      && v.Ok?
      && (a in u.current.values ==> v.value.usage == u.usage - u.current.values[a])
      && (a !in u.current.values ==> v.value.usage == u.usage && v.value.current == u.current)
  {
  }

  /** The series and the summary track the same live blocks. */
  lemma {:induction false} UsageTracksSummary(recs: seq<Record>, n: nat)
    requires n <= |recs| && UsageOf(recs, n).Ok?
    ensures TallyOf(recs, n).Ok? && UsageOf(recs, n).value.current == TallyOf(recs, n).value.allocs
  {
    if n > 0 {
      UsageTracksSummary(recs, n - 1);
    }
  }

  /** The plotted points: one time and one usage figure per record. */
  datatype Plot = Plot(times: seq<int>, memusage: seq<int>)

  /** `viz_heap_usage_over_time`, up to the points it plots. */
  method HeapUsageOverTime(dataset: ODict<int, Record>) returns (r: Result<Plot, ReplayError>)
    requires dataset.Valid()
    ensures var series := UsageOf(Items(dataset), |dataset.keys|);
      && (series.Err? ==> r == Err(series.error))
      && (series.Ok? ==> r == Ok(Plot(dataset.keys, series.value.series)))
  {
    ghost var recs := Items(dataset);
    var currAllocs := Empty<int, int>();
    var currMemusage := 0;
    var times := [];
    var memusage := [];
    var i := 0;
    while i < |dataset.keys|
      invariant 0 <= i <= |dataset.keys|
      invariant UsageOf(recs, i) == Ok(Usage(currAllocs, currMemusage, memusage))
      invariant times == dataset.keys[..i]
    {
      var time := dataset.keys[i];
      var data := dataset.values[time];
      assert recs[i] == data;
      var missing;
      currAllocs, currMemusage, missing := UsageRecord(currAllocs, currMemusage, data, memusage, i);
      if missing {
        UsageFailsFirst(recs, i, |recs|);
        return Err(SizeMissing(i));
      }
      times := times + [time];
      memusage := memusage + [currMemusage];
      assert dataset.keys[..i + 1] == dataset.keys[..i] + [time];
      i := i + 1;
    }
    assert dataset.keys[..i] == dataset.keys;
    return Ok(Plot(times, memusage));
  }

  /**
   * The body of `viz_heap_usage_over_time`'s loop on one record, up to the
   * sample it takes; missing tells that the record is an allocation whose
   * size the addition rejects.
   */
  method UsageRecord(currAllocs: ODict<int, int>, currMemusage: int, data: Record, ghost series: seq<int>, ghost index: nat)
    returns (currAllocs': ODict<int, int>, currMemusage': int, missing: bool)
    ensures missing <==> LacksSize(data)
    ensures !missing ==>
      UsageStep(Usage(currAllocs, currMemusage, series), data, index)
        == Ok(Usage(currAllocs', currMemusage', series + [currMemusage']))
  {
    currAllocs', currMemusage', missing := currAllocs, currMemusage, false;
    if data.operation == "free" {
      if data.address in currAllocs.values {
        currMemusage' := currMemusage - currAllocs.values[data.address];
        currAllocs' := currAllocs.Delete(data.address);
      }
    } else {
      if data.size.None? {
        missing := true;
        return;
      }
      currAllocs' := currAllocs.Set(data.address, data.size.value);
      currMemusage' := currMemusage + data.size.value;
    }
  }

  // ---------------------------------------------------------------------------
  // The usage series counts a re-allocated live address twice
  // ---------------------------------------------------------------------------

  /**
   * Two allocations at one address with no free between them: the series
   * as written reaches 30 bytes while 20 bytes are live.
   */
  lemma UsageOvercounts()
    ensures var recs := [Record("malloc", 4096, Some(10)), Record("malloc", 4096, Some(20))];
      && UsageOf(recs, 2).Ok?
      && UsageOf(recs, 2).value.usage == 30
      && Total(UsageOf(recs, 2).value.current) == 20
  {
    var recs := [Record("malloc", 4096, Some(10)), Record("malloc", 4096, Some(20))];
    var first := UsageOf(recs, 1).value;
    assert first == Usage(ODict([4096], map[4096 := 10]), 10, [10]);
    var u := UsageOf(recs, 2).value;
    assert u.current == ODict([4096], map[4096 := 20]) && u.usage == 30;
    assert [4096][1..] == [];
  }

  /**
   * One pass of the loop as intended: an allocation at a live address
   * replaces that block's size instead of adding to it, so the usage stays
   * the total of the live blocks.
   */
  function LiveUsageStep(u: Usage, rec: Record, index: nat): (r: Result<Usage, ReplayError>)
    requires u.current.Valid() && u.usage == Total(u.current)
    ensures r.Ok? <==> !LacksSize(rec)
    ensures r.Ok? ==> r.value.current.Valid() && r.value.series == u.series + [r.value.usage]
    ensures r.Ok? ==> r.value.usage == Total(r.value.current)
  {
    if IsFree(rec) then
      if rec.address in u.current.values then
        var usage := u.usage - u.current.values[rec.address];
        DeleteOrder(u.current, rec.address);
        TotalAfterDelete(u.current, rec.address);
        Ok(Usage(u.current.Delete(rec.address), usage, u.series + [usage]))
      else
        Ok(u.(series := u.series + [u.usage]))
    else if rec.size.None? then Err(SizeMissing(index))
    else
      var replaced := if rec.address in u.current.values then u.current.values[rec.address] else 0;
      var usage := u.usage - replaced + rec.size.value;
      SetOrder(u.current, rec.address, rec.size.value);
      TotalAfterSet(u.current, rec.address, rec.size.value);
      Ok(Usage(u.current.Set(rec.address, rec.size.value), usage, u.series + [usage]))
  }

  /** The intended series over the first n records: each sample is the total size of the blocks live at that point. */
  function LiveUsageOf(recs: seq<Record>, n: nat): (r: Result<Usage, ReplayError>)
    requires n <= |recs|
    ensures r.Ok? <==> forall i :: 0 <= i < n ==> !LacksSize(recs[i])
    ensures r.Ok? ==> r.value.current.Valid() && |r.value.series| == n
    ensures r.Ok? ==> r.value.usage == Total(r.value.current)
  {
    if n == 0 then Ok(Usage(Empty(), 0, []))
    else
      match LiveUsageOf(recs, n - 1)
      case Err(e) => Err(e)
      case Ok(u) => LiveUsageStep(u, recs[n - 1], n - 1)
  }

  /** The intended series ends at the bytes the summary reports in use. */
  lemma {:induction false} LiveUsageIsInUseBytes(recs: seq<Record>, n: nat)
    requires n <= |recs| && LiveUsageOf(recs, n).Ok?
    ensures TallyOf(recs, n).Ok?
    ensures LiveUsageOf(recs, n).value.current == TallyOf(recs, n).value.allocs
    ensures LiveUsageOf(recs, n).value.usage == Total(TallyOf(recs, n).value.allocs)
  {
    if n > 0 {
      LiveUsageIsInUseBytes(recs, n - 1);
    }
  }
}
