/**
 * NetworkMonitor.swift: turning the per-process byte counters that `nettop`
 * prints into `network_activity` cues.
 *
 * The `nettop` subprocess and its pipe are not modelled: each chunk of text
 * the readability handler receives is one `ParseOutput` call. Each pid change
 * that restarts the subprocess is reported by `UpdateTarget`.
 */
module Network {
  import opened Common
  import opened Text

  // ------------------------------------------------------------------ splitting

  /** The pieces of `s` between separators, empty pieces kept, after the partial piece `acc`. */
  function SplitAcc(s: string, isSep: char -> bool, acc: string): (r: seq<string>)
    ensures |r| >= 1
    decreases |s|
  {
    if s == [] then [acc]
    else if isSep(s[0]) then [acc] + SplitAcc(s[1..], isSep, [])
    else SplitAcc(s[1..], isSep, acc + [s[0]])
  }

  predicate IsNewline(c: char) {
    '\n' <= c <= '\r' || c == '\U{85}' || c == '\U{2028}' || c == '\U{2029}'
  }

  predicate IsComma(c: char) {
    c == ','
  }

  /** `components(separatedBy: .newlines)`. */
  function Lines(s: string): seq<string> {
    SplitAcc(s, IsNewline, [])
  }

  /** `components(separatedBy: ",")`. */
  function Fields(s: string): seq<string> {
    SplitAcc(s, IsComma, [])
  }

  /** The fields joined back with commas. */
  function JoinFields(parts: seq<string>): string
    decreases |parts|
  {
    if parts == [] then "" else if |parts| == 1 then parts[0] else parts[0] + "," + JoinFields(parts[1..])
  }

  predicate NoComma(s: string) {
    forall i :: 0 <= i < |s| ==> s[i] != ','
  }

  lemma {:induction false} SplitNoSep(s: string, acc: string)
    requires NoComma(s)
    ensures SplitAcc(s, IsComma, acc) == [acc + s]
    decreases |s|
  {
    if s == [] {
      assert acc + s == acc;
    } else {
      SplitNoSep(s[1..], acc + [s[0]]);
      assert s == [s[0]] + s[1..];
      assert acc + [s[0]] + s[1..] == acc + s;
    }
  }

  lemma {:induction false} SplitAtSep(a: string, b: string, acc: string)
    requires NoComma(a)
    ensures SplitAcc(a + "," + b, IsComma, acc) == [acc + a] + SplitAcc(b, IsComma, [])
    decreases |a|
  {
    if a == [] {
      assert a + "," + b == [','] + b;
      assert (a + "," + b)[1..] == b;
      assert acc + a == acc;
    } else {
      assert (a + "," + b)[0] == a[0];
      assert (a + "," + b)[1..] == a[1..] + "," + b;
      assert a == [a[0]] + a[1..];
      SplitAtSep(a[1..], b, acc + [a[0]]);
      assert acc + [a[0]] + a[1..] == acc + a;
    }
  }

  /** Splitting a comma-joined row gives back its fields, empty ones included. */
  lemma {:induction false} FieldsRoundTrip(parts: seq<string>)
    requires parts != [] && forall i :: 0 <= i < |parts| ==> NoComma(parts[i])
    ensures Fields(JoinFields(parts)) == parts
    decreases |parts|
  {
    if |parts| == 1 {
      SplitNoSep(parts[0], []);
      assert [] + parts[0] == parts[0];
    } else {
      FieldsRoundTrip(parts[1..]);
      SplitAtSep(parts[0], JoinFields(parts[1..]), []);
      assert [] + parts[0] == parts[0];
    }
  }

  // ------------------------------------------------------------------ one row

  /** What one row does to the running totals in the source as written. */
  datatype RowOutcome = Skip | Add(bytesIn: int, bytesOut: int) | Trap

  /**
   * One row as the source handles it: fewer than 5 fields or a header is
   * skipped; fields 4 and 5 are added when both parse. Swift evaluates the
   * two `Int64` conversions in order, so with exactly 5 fields reading
   * field 5 traps, but only once field 4 has parsed.
   */
  function RowAsWritten(parts: seq<string>): (r: RowOutcome)
    ensures |parts| < 5 || Contains(parts[0], "time") ==> r == Skip
    ensures r == Trap ==> |parts| == 5 && ParseInt64(parts[4]).Some?
    ensures r.Add? ==> |parts| >= 6 && ParseInt64(parts[4]) == Some(r.bytesIn) && ParseInt64(parts[5]) == Some(r.bytesOut)
  {
    if |parts| < 5 || Contains(parts[0], "time") then Skip
    else match ParseInt64(parts[4])
      case None => Skip
      case Some(bin) =>
        if |parts| < 6 then Trap
        else match ParseInt64(parts[5])
          case None => Skip
          case Some(bout) => Add(bin, bout)
  }

  /** The source traps exactly on a non-header row of 5 fields whose field 4 is a number. */
  lemma RowTrapsIff(parts: seq<string>)
    ensures RowAsWritten(parts) == Trap <==>
              |parts| == 5 && !Contains(parts[0], "time") && ParseInt64(parts[4]).Some?
  {
  }

  /** A string that lacks the first character of `sub` does not contain `sub`. */
  lemma MissingFirstChar(s: string, sub: string)
    requires sub != [] && forall i :: 0 <= i < |s| ==> s[i] != sub[0]
    ensures !Contains(s, sub)
  {
    ContainsIffOccurrence(s, sub);
    forall i ensures !OccursAt(s, sub, i) {
      if 0 <= i && i + |sub| <= |s| {
        assert s[i..i + |sub|][0] == s[i];
      }
    }
  }

  /**
   * A five-field row, `12:00:00,en0,Established,1234,5678`: the shape of the
   * sample row in the source's comment without its trailing `,...`. Such a
   * row reaches the conversion of field 5.
   */
  lemma FiveFieldRowJoined()
    ensures JoinFields(["12:00:00", "en0", "Established", "1234", "5678"]) == "12:00:00,en0,Established,1234,5678"
  {
    var parts := ["12:00:00", "en0", "Established", "1234", "5678"];
    assert parts[1..] == ["en0", "Established", "1234", "5678"];
    assert parts[1..][1..] == ["Established", "1234", "5678"];
    assert parts[1..][1..][1..] == ["1234", "5678"];
    assert parts[1..][1..][1..][1..] == ["5678"];
  }

  lemma FiveFieldRowFields()
    ensures Fields("12:00:00,en0,Established,1234,5678") == ["12:00:00", "en0", "Established", "1234", "5678"]
  {
    var parts := ["12:00:00", "en0", "Established", "1234", "5678"];
    assert NoComma(parts[0]) && NoComma(parts[1]) && NoComma(parts[2]) && NoComma(parts[3]) && NoComma(parts[4]);
    FiveFieldRowJoined();
    FieldsRoundTrip(parts);
  }

  lemma ParseFieldFour()
    ensures ParseInt64("5678") == Some(5678)
  {
    assert DecimalString(5678) == "5678" by {
      assert Digits(5678) == Digits(567) + [DigitChar(8)];
      assert Digits(567) == Digits(56) + [DigitChar(7)];
      assert Digits(56) == Digits(5) + [DigitChar(6)];
    }
    DecimalRoundTrip(5678);
  }

  /** The first field `12:00:00` is no header, and the field 4 `5678` parses. */
  lemma SampleRowValues()
    ensures !Contains("12:00:00", "time") && ParseInt64("5678").Some?
  {
    MissingFirstChar("12:00:00", "time");
    ParseFieldFour();
  }

  /** The five-field row passes both guards and field 4 parses, so reading field 5 traps. */
  lemma FiveFieldRowTraps()
    ensures var line := "12:00:00,en0,Established,1234,5678";
      |Fields(line)| == 5 && RowAsWritten(Fields(line)) == Trap
  {
    FiveFieldRowFields();
    SampleRowValues();
    RowTrapsIff(["12:00:00", "en0", "Established", "1234", "5678"]);
  }

  lemma SampleRowJoined()
    ensures JoinFields(["12:00:00", "en0", "Established", "1234", "5678", "..."])
            == "12:00:00,en0,Established,1234,5678,..."
  {
    var parts := ["12:00:00", "en0", "Established", "1234", "5678", "..."];
    assert parts[1..] == ["en0", "Established", "1234", "5678", "..."];
    assert parts[1..][1..] == ["Established", "1234", "5678", "..."];
    assert parts[1..][1..][1..] == ["1234", "5678", "..."];
    assert parts[1..][1..][1..][1..] == ["5678", "..."];
    assert parts[1..][1..][1..][1..][1..] == ["..."];
  }

  lemma SampleRowFields()
    ensures Fields("12:00:00,en0,Established,1234,5678,...") == ["12:00:00", "en0", "Established", "1234", "5678", "..."]
  {
    var parts := ["12:00:00", "en0", "Established", "1234", "5678", "..."];
    assert NoComma(parts[0]) && NoComma(parts[1]) && NoComma(parts[2]) && NoComma(parts[3]);
    assert NoComma(parts[4]) && NoComma(parts[5]);
    SampleRowJoined();
    FieldsRoundTrip(parts);
  }

  /**
   * The sample row as the source's comment prints it ends in `,...`: it has
   * six fields, field 5 is no number, and the row is skipped.
   */
  lemma SampleRowSkipped()
    ensures var line := "12:00:00,en0,Established,1234,5678,...";
      Fields(line) == ["12:00:00", "en0", "Established", "1234", "5678", "..."]
      && RowAsWritten(Fields(line)) == Skip && RowBytes(Fields(line)) == None
  {
    SampleRowFields();
    SampleRowValues();
    assert ParseInt64("...") == None by {
      assert !IsDigit("..."[0]);
    }
  }

  /**
   * The evidently intended row: fields 4 and 5 are read only when the row
   * has at least 6 fields, so no row traps.
   */
  function RowBytes(parts: seq<string>): (r: Option<(int, int)>)
    ensures r.Some? ==> |parts| >= 6 && !Contains(parts[0], "time")
    ensures r.Some? ==> ParseInt64(parts[4]) == Some(r.value.0) && ParseInt64(parts[5]) == Some(r.value.1)
  {
    if |parts| < 6 || Contains(parts[0], "time") then None
    else match (ParseInt64(parts[4]), ParseInt64(parts[5]))
      case (Some(bin), Some(bout)) => Some((bin, bout))
      case _ => None
  }

  /** Wherever the source does not trap, the corrected row does exactly what it does. */
  lemma RowBytesAgrees(parts: seq<string>)
    ensures RowAsWritten(parts) != Trap ==>
              (RowAsWritten(parts) == Skip <==> RowBytes(parts).None?)
              && (RowAsWritten(parts).Add? ==> RowBytes(parts) == Some((RowAsWritten(parts).bytesIn, RowAsWritten(parts).bytesOut)))
    ensures RowAsWritten(parts) == Trap ==> RowBytes(parts).None?
  {
  }

  // ------------------------------------------------------------------ a sample

  /** The running sums of one chunk of output, and whether any row had data. */
  datatype Sample = Sample(bytesIn: int, bytesOut: int, foundData: bool)

  /** The sums over the rows of `lines` that carry data. */
  function Totals(lines: seq<string>): Sample
    decreases |lines|
  {
    if lines == [] then Sample(0, 0, false)
    else
      var s := Totals(lines[..|lines| - 1]);
      match RowBytes(Fields(lines[|lines| - 1]))
      case None => s
      case Some((bin, bout)) => Sample(s.bytesIn + bin, s.bytesOut + bout, true)
  }

  /** Sums of two samples taken over consecutive stretches of lines. */
  function Combine(a: Sample, b: Sample): Sample {
    Sample(a.bytesIn + b.bytesIn, a.bytesOut + b.bytesOut, a.foundData || b.foundData)
  }

  /** The totals of a chunk are the totals of its parts added up, however the chunk is cut. */
  lemma {:induction false} TotalsAppend(a: seq<string>, b: seq<string>)
    ensures Totals(a + b) == Combine(Totals(a), Totals(b))
    decreases |b|
  {
    if b == [] {
      assert a + b == a;
    } else {
      var b' := b[..|b| - 1];
      TotalsAppend(a, b');
      assert (a + b)[..|a + b| - 1] == a + b';
      assert (a + b)[|a + b| - 1] == b[|b| - 1];
    }
  }

  /** Lines without data leave the totals as they are: headers, short rows, text that is not a number. */
  lemma TotalsSkipLine(lines: seq<string>, line: string)
    requires RowBytes(Fields(line)).None?
    ensures Totals(lines + [line]) == Totals(lines)
  {
    assert (lines + [line])[..|lines|] == lines;
  }

  // ------------------------------------------------------------------ the monitor

  const ActivityThreshold: int := 1024

  /** The threshold test: more than 1024 bytes in either direction since the last sample. */
  predicate Active(lastIn: int, lastOut: int, s: Sample) {
    s.bytesIn - lastIn > ActivityThreshold || s.bytesOut - lastOut > ActivityThreshold
  }

  /** Counters that went down or stayed put never fire, and exactly 1024 more bytes do not either. */
  lemma ActivityNeedsGrowth(lastIn: int, lastOut: int, s: Sample)
    ensures s.bytesIn <= lastIn + ActivityThreshold && s.bytesOut <= lastOut + ActivityThreshold ==> !Active(lastIn, lastOut, s)
    ensures s.bytesIn > lastIn + ActivityThreshold ==> Active(lastIn, lastOut, s)
  {
  }

  class NetworkMonitor {
    var currentPid: int
    var lastBytesIn: int
    var lastBytesOut: int
    var isFirstSample: bool

    constructor ()
      ensures currentPid == -1 && lastBytesIn == 0 && lastBytesOut == 0 && isFirstSample
    {
      currentPid := -1;
      lastBytesIn := 0;
      lastBytesOut := 0;
      isFirstSample := true;
    }

    /**
     * `updateTarget(pid:)`: the current pid changes nothing; another pid is
     * recorded with fresh counters and a new `nettop` (`restarted`).
     */
    method UpdateTarget(pid: int) returns (restarted: bool)
      modifies this
      ensures pid == old(currentPid) ==>
                !restarted && currentPid == old(currentPid) && lastBytesIn == old(lastBytesIn)
                && lastBytesOut == old(lastBytesOut) && isFirstSample == old(isFirstSample)
      ensures pid != old(currentPid) ==>
                restarted && currentPid == pid && lastBytesIn == 0 && lastBytesOut == 0 && isFirstSample
    {
      if pid == currentPid {
        return false;
      }
      currentPid := pid;
      lastBytesIn := 0;
      lastBytesOut := 0;
      isFirstSample := true;
      restarted := true;
    }

    /** The loop of `parseOutput` over the lines of one chunk. */
    static method SumRows(lines: seq<string>) returns (s: Sample)
      ensures s == Totals(lines)
    {
      var currentTotalIn, currentTotalOut, foundData := 0, 0, false;
      var i := 0;
      while i < |lines|
        invariant 0 <= i <= |lines|
        invariant Sample(currentTotalIn, currentTotalOut, foundData) == Totals(lines[..i])
      {
        assert lines[..i + 1][..i] == lines[..i];
        var parts := Fields(lines[i]);
        if |parts| >= 6 && !Contains(parts[0], "time") {
          var bin, bout := ParseInt64(parts[4]), ParseInt64(parts[5]);
          if bin.Some? && bout.Some? {
            currentTotalIn := currentTotalIn + bin.value;
            currentTotalOut := currentTotalOut + bout.value;
            foundData := true;
          }
        }
        i := i + 1;
      }
      assert lines[..i] == lines;
      s := Sample(currentTotalIn, currentTotalOut, foundData);
    }

    /**
     * `parseOutput` on one chunk, with the six-field guard. Without data
     * nothing changes; the first sample with data is the baseline; later
     * ones move the baseline and ask for `network_activity` when `Active`.
     */
    method ParseOutput(output: string) returns (request: Option<SoundRequest>)
      modifies this
      ensures var s := Totals(Lines(output));
        && currentPid == old(currentPid)
        && (!s.foundData ==>
              request.None? && lastBytesIn == old(lastBytesIn) && lastBytesOut == old(lastBytesOut)
              && isFirstSample == old(isFirstSample))
        && (s.foundData && old(isFirstSample) ==>
              request.None? && lastBytesIn == s.bytesIn && lastBytesOut == s.bytesOut && !isFirstSample)
        && (s.foundData && !old(isFirstSample) ==>
              lastBytesIn == s.bytesIn && lastBytesOut == s.bytesOut && !isFirstSample
              && (request == if Active(old(lastBytesIn), old(lastBytesOut), s) then Some(Play("network_activity")) else None))
    {
      var s := SumRows(Lines(output));
      if !s.foundData {
        return None;
      }
      if isFirstSample {
        lastBytesIn := s.bytesIn;
        lastBytesOut := s.bytesOut;
        isFirstSample := false;
        return None;
      }
      var deltaIn := s.bytesIn - lastBytesIn;
      var deltaOut := s.bytesOut - lastBytesOut;
      lastBytesIn := s.bytesIn;
      lastBytesOut := s.bytesOut;
      if deltaIn > ActivityThreshold || deltaOut > ActivityThreshold {
        request := Some(Play("network_activity"));
      } else {
        request := None;
      }
    }
  }
}
