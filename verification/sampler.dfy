/**
 The resource sampler of `PerformanceMonitor`: the two best-effort probes
 `readCPU` and `readFreeMemory`. Launching `ps` and `vm_stat` is not modelled;
 each probe receives the lines the command printed, or `None` when the launch
 or the read threw. Every failure is swallowed and reported as `Sentinel`.
 */
module Sampler {
  import opened Results
  import opened JavaLong
  import opened Decimal
  import opened Text

  /** The reading a probe reports when anything inside it threw. */
  const Sentinel: real := -1.0

  // ---------- vm_stat ----------

  /** `Long.parseLong` applied to a string of ASCII digits. */
  function ParseLong(digits: string): (r: Option<Long>)
    requires AllDigits(digits)
    ensures r.None? <==> |digits| == 0 || MaxLong < DigitsValue(digits)
    ensures r.Some? ==> r.value as int == DigitsValue(digits)
  {
    if 0 < |digits| && DigitsValue(digits) <= MaxLong then Some(DigitsValue(digits)) else None
  }

  /** Every non-negative `long`, spelled in decimal, parses back to itself. */
  lemma ParseLongRoundTrip(n: nat)
    requires n <= MaxLong
    ensures ParseLong(NatToDigits(n)) == Some(n)
  {
  }

  /** The number a matched `vm_stat` line yields: all its digits, glued together and parsed. */
  function LineValue(line: string): Option<Long> {
    ParseLong(KeepDigits(line))
  }

  /** The two kinds of `vm_stat` line the scan looks for. */
  datatype Pattern = FreePages | PageSize

  const FreePagesPrefix: string := "Pages free"
  const PageSizeMarker: string := "page size of"

  /** A free-pages line starts with "Pages free"; a page-size line merely contains "page size of". */
  predicate Matches(p: Pattern, line: string) {
    match p
    case FreePages => StartsWith(line, FreePagesPrefix)
    case PageSize => Contains(line, PageSizeMarker)
  }

  /** The index of the last line that matches `p`, if any. */
  function LastMatch(lines: seq<string>, p: Pattern): (r: Option<nat>)
    ensures r.Some? ==> r.value < |lines| && Matches(p, lines[r.value])
    ensures r.Some? ==> forall j :: r.value < j < |lines| ==> !Matches(p, lines[j])
    ensures r.None? ==> forall j :: 0 <= j < |lines| ==> !Matches(p, lines[j])
  {
    if |lines| == 0 then None
    else if Matches(p, lines[|lines| - 1]) then Some(|lines| - 1)
    else LastMatch(lines[..|lines| - 1], p)
  }

  /** A line of either kind with no digits, or too many, on which `parseLong` throws. */
  predicate Throws(line: string) {
    (Matches(FreePages, line) || Matches(PageSize, line)) && LineValue(line).None?
  }

  /** Some line of the output makes the scan throw. */
  predicate ScanThrows(lines: seq<string>) {
    exists i :: 0 <= i < |lines| && Throws(lines[i])
  }

  /** The value a field ends with when the scan completes: that of its last matching line, else its default. */
  function Field(lines: seq<string>, p: Pattern, default: Long): Long
    requires !ScanThrows(lines)
  {
    match LastMatch(lines, p)
    case None => default
    case Some(i) => LineValue(lines[i]).value
  }

  /** `(freePages * pageSize) / (1024.0 * 1024.0)`, the product taken in `long` arithmetic. */
  function MemoryMB(freePages: Long, pageSize: Long): real {
    Wrap(freePages * pageSize) as real / 1048576.0
  }

  /**
   `readFreeMemory`: scans every line of the `vm_stat` output, keeping the last
   free-pages and page-size values (defaults 0 and 4096). The first line on
   which `parseLong` throws ends the probe with the sentinel.
   */
  method ReadFreeMemory(output: Option<seq<string>>) returns (mb: real)
    ensures output.None? ==> mb == Sentinel
    ensures output.Some? && ScanThrows(output.value) ==> mb == Sentinel
    ensures output.Some? && !ScanThrows(output.value) ==>
      mb == MemoryMB(Field(output.value, FreePages, 0), Field(output.value, PageSize, 4096))
  {
    if output.None? {
      return Sentinel;
    }
    var lines := output.value;
    var freePages: Long := 0;
    var pageSize: Long := 4096;
    var n := 0;
    while n < |lines|
      invariant 0 <= n <= |lines|
      invariant !ScanThrows(lines[..n])
      invariant freePages == Field(lines[..n], FreePages, 0)
      invariant pageSize == Field(lines[..n], PageSize, 4096)
    {
      var line := lines[n];
      assert lines[..n + 1][..n] == lines[..n];
      assert lines[..n + 1][n] == line;
      if Matches(FreePages, line) {
        var v := LineValue(line);
        if v.None? {
          assert lines[n] == line;
          return Sentinel;
        }
        freePages := v.value;
      }
      if Matches(PageSize, line) {
        var v := LineValue(line);
        if v.None? {
          assert lines[n] == line;
          return Sentinel;
        }
        pageSize := v.value;
      }
      assert !ScanThrows(lines[..n + 1]) by {
        var pre := lines[..n + 1];
        forall i | 0 <= i < |pre|
          ensures !Throws(pre[i])
        {
          if i < n {
            assert pre[i] == lines[..n][i];
          }
        }
      }
      n := n + 1;
    }
    assert lines[..n] == lines;
    return MemoryMB(freePages, pageSize);
  }

  // ---------- ps ----------

  /** A non-empty string with no blank at either end, as `trim` leaves it. */
  predicate Trimmed(t: string) {
    0 < |t| && !IsBlank(t[0]) && !IsBlank(t[|t| - 1])
  }

  /** The per-process entries of a `ps` listing body: each line trimmed, blank ones dropped. */
  function Entries(lines: seq<string>): (r: seq<string>)
    ensures |r| <= |lines|
    ensures forall i :: 0 <= i < |r| ==> Trimmed(r[i])
  {
    if |lines| == 0 then []
    else
      var t := Trim(lines[|lines| - 1]);
      assert |t| != 0 ==> Trimmed(t);
      if |t| == 0 then Entries(lines[..|lines| - 1]) else Entries(lines[..|lines| - 1]) + [t]
  }

  /** Parses every entry; `None` as soon as one of them does not parse. */
  function ParseAll(entries: seq<string>, parseDouble: string -> Option<real>): (r: Option<seq<real>>)
    ensures r.None? <==> exists i :: 0 <= i < |entries| && parseDouble(entries[i]).None?
    ensures r.Some? ==> |r.value| == |entries| &&
                        forall i :: 0 <= i < |entries| ==> parseDouble(entries[i]) == Some(r.value[i])
  {
    if |entries| == 0 then Some([])
    else
      var front := ParseAll(entries[..|entries| - 1], parseDouble);
      var last := parseDouble(entries[|entries| - 1]);
      if front.None? then None
      else if last.None? then None
      else Some(front.value + [last.value])
  }

  function Sum(xs: seq<real>): real {
    if |xs| == 0 then 0.0 else Sum(xs[..|xs| - 1]) + xs[|xs| - 1]
  }

  /** The lines of a `ps` listing after the header line that `readLine` skips. */
  function Body(lines: seq<string>): seq<string> {
    if |lines| == 0 then [] else lines[1..]
  }

  /**
   The loop of `readCPU` taken one line at a time: a blank line adds nothing,
   a non-blank line adds its parsed value, and the first line that does not
   parse ends the loop with `None`.
   */
  function LineTotal(body: seq<string>, parseDouble: string -> Option<real>): Option<real> {
    if |body| == 0 then Some(0.0)
    else Next(LineTotal(body[..|body| - 1], parseDouble), Trim(body[|body| - 1]), parseDouble)
  }

  /** One turn of the `readCPU` loop on a trimmed line, given the total so far. */
  function Next(total: Option<real>, line: string, parseDouble: string -> Option<real>): Option<real> {
    match total
    case None => None
    case Some(sum) =>
      if |line| == 0 then Some(sum)
      else
        match parseDouble(line)
        case None => None
        case Some(x) => Some(sum + x)
  }

  /**
   `readCPU`: skips the header line, then adds up `Double.parseDouble` of every
   non-blank trimmed line. `parseDouble` stands for `Double.parseDouble`, `None`
   where it throws; a throw anywhere makes the probe report the sentinel.
   */
  function ReadCpu(output: Option<seq<string>>, parseDouble: string -> Option<real>): (r: real)
    ensures output.None? ==> r == Sentinel
    ensures output.Some? ==>
      r == match LineTotal(Body(output.value), parseDouble)
           case None => Sentinel
           case Some(total) => total
  {
    if output.None? then Sentinel
    else
      EntriesMatchLines(Body(output.value), parseDouble);
      match ParseAll(Entries(Body(output.value)), parseDouble)
      case None => Sentinel
      case Some(values) => Sum(values)
  }

  /** Entries of consecutive pieces of a listing are the entries of each piece, in order. */
  lemma {:induction false} EntriesAppend(a: seq<string>, b: seq<string>)
    ensures Entries(a + b) == Entries(a) + Entries(b)
    decreases |b|
  {
    if |b| == 0 {
      assert a + b == a;
    } else {
      var front := b[..|b| - 1];
      assert (a + b)[..|a + b| - 1] == a + front;
      assert (a + b)[|a + b| - 1] == b[|b| - 1];
      EntriesAppend(a, front);
    }
  }

  /** A single line gives one entry, its trimmed text, unless it is blank. */
  lemma EntriesOne(line: string)
    ensures Entries([line]) == if |Trim(line)| == 0 then [] else [Trim(line)]
  {
    assert [line][..0] == [];
  }

  lemma ParseAllSnoc(entries: seq<string>, t: string, parseDouble: string -> Option<real>)
    ensures ParseAll(entries + [t], parseDouble)
         == match ParseAll(entries, parseDouble)
            case None => None
            case Some(vs) => (match parseDouble(t) case None => None case Some(x) => Some(vs + [x]))
  {
    assert (entries + [t])[..|entries|] == entries;
  }

  lemma SumSnoc(xs: seq<real>, x: real)
    ensures Sum(xs + [x]) == Sum(xs) + x
  {
    assert (xs + [x])[..|xs|] == xs;
  }

  /** The total of the entries parsed so far, or `None` once one of them fails. */
  function EntryTotal(entries: seq<string>, parseDouble: string -> Option<real>): Option<real> {
    match ParseAll(entries, parseDouble)
    case None => None
    case Some(values) => Some(Sum(values))
  }

  /** One more entry adds its parsed value to the total, or fails it. */
  lemma EntryTotalSnoc(entries: seq<string>, t: string, parseDouble: string -> Option<real>)
    ensures EntryTotal(entries + [t], parseDouble)
         == match EntryTotal(entries, parseDouble)
            case None => None
            case Some(total) => (match parseDouble(t) case None => None case Some(x) => Some(total + x))
  {
    ParseAllSnoc(entries, t, parseDouble);
    match ParseAll(entries, parseDouble)
    case None =>
    case Some(vs) =>
      match parseDouble(t)
      case None =>
      case Some(x) => SumSnoc(vs, x);
  }

  /** The entries a trimmed line adds: none when it is blank, otherwise the line itself. */
  function Piece(line: string): seq<string> {
    if |line| == 0 then [] else [line]
  }

  lemma EntriesStep(body: seq<string>)
    requires 0 < |body|
    ensures Entries(body) == Entries(body[..|body| - 1]) + Piece(Trim(body[|body| - 1]))
  {
    if |Trim(body[|body| - 1])| == 0 {
      assert Entries(body[..|body| - 1]) + [] == Entries(body[..|body| - 1]);
    }
  }

  lemma EntryTotalNext(entries: seq<string>, line: string, parseDouble: string -> Option<real>)
    ensures EntryTotal(entries + Piece(line), parseDouble) == Next(EntryTotal(entries, parseDouble), line, parseDouble)
  {
    if |line| == 0 {
      assert entries + Piece(line) == entries;
    } else {
      EntryTotalSnoc(entries, line, parseDouble);
    }
  }

  /**
   Trimming, dropping blank lines, parsing and summing the entries gives what
   the line-by-line loop gives: each non-blank line adds exactly one summand.
   */
  lemma {:induction false} EntriesMatchLines(body: seq<string>, parseDouble: string -> Option<real>)
    ensures LineTotal(body, parseDouble) == EntryTotal(Entries(body), parseDouble)
    decreases |body|
  {
    if 0 < |body| {
      var front := body[..|body| - 1];
      var line := Trim(body[|body| - 1]);
      EntriesMatchLines(front, parseDouble);
      EntriesStep(body);
      EntryTotalNext(Entries(front), line, parseDouble);
    }
  }

  /** Every non-blank line after the header contributes its trimmed text as an entry. */
  lemma {:induction false} EntriesHoldLine(body: seq<string>, i: nat)
    requires i < |body| && |Trim(body[i])| != 0
    ensures Trim(body[i]) in Entries(body)
    decreases |body|
  {
    if i < |body| - 1 {
      EntriesHoldLine(body[..|body| - 1], i);
    }
  }

  /** One unparseable process line, anywhere after the header, turns the whole CPU reading into the sentinel. */
  lemma CpuBadLine(lines: seq<string>, i: nat, parseDouble: string -> Option<real>)
    requires 1 <= i < |lines|
    requires |Trim(lines[i])| != 0 && parseDouble(Trim(lines[i])).None?
    ensures ReadCpu(Some(lines), parseDouble) == Sentinel
  {
    EntriesHoldLine(Body(lines), i - 1);
  }

  /** When every process line parses, the reading is the exact sum of the parsed values, in listing order. */
  lemma CpuAllParse(lines: seq<string>, parseDouble: string -> Option<real>)
    requires forall i :: 1 <= i < |lines| && |Trim(lines[i])| != 0 ==> parseDouble(Trim(lines[i])).Some?
    ensures ParseAll(Entries(Body(lines)), parseDouble).Some?
    ensures ReadCpu(Some(lines), parseDouble) == Sum(ParseAll(Entries(Body(lines)), parseDouble).value)
  {
    var es := Entries(Body(lines));
    forall k | 0 <= k < |es|
      ensures parseDouble(es[k]).Some?
    {
      var j := EntryOrigin(Body(lines), k);
      assert lines[j + 1] == Body(lines)[j];
    }
  }

  /** When every process line parses, the loop of `readCPU` runs to the end without throwing. */
  lemma CpuLoopCompletes(lines: seq<string>, parseDouble: string -> Option<real>)
    requires forall i :: 1 <= i < |lines| && |Trim(lines[i])| != 0 ==> parseDouble(Trim(lines[i])).Some?
    ensures LineTotal(Body(lines), parseDouble).Some?
  {
    CpuAllParse(lines, parseDouble);
    EntriesMatchLines(Body(lines), parseDouble);
  }

  /** Each entry is the trimmed text of some line of the body. */
  lemma {:induction false} EntryOrigin(body: seq<string>, k: nat) returns (j: nat)
    requires k < |Entries(body)|
    ensures j < |body| && Entries(body)[k] == Trim(body[j]) && |Trim(body[j])| != 0
    decreases |body|
  {
    var front := body[..|body| - 1];
    var t := Trim(body[|body| - 1]);
    if |t| != 0 && k == |Entries(front)| {
      j := |body| - 1;
    } else {
      j := EntryOrigin(front, k);
    }
  }

  /** A listing with no process lines reads as zero CPU, not as the sentinel. */
  lemma CpuEmptyListing(lines: seq<string>, parseDouble: string -> Option<real>)
    requires |lines| <= 1
    ensures ReadCpu(Some(lines), parseDouble) == 0.0
  {
  }

}
