/**
 The `java.lang.String` operations the harness relies on, over `seq<char>`:
 `startsWith`, `contains`, `trim`, `replaceAll("[^0-9]", "")`, and the
 comma-separated field layout of a CSV line.
 */
module Text {
  import opened Decimal

  predicate StartsWith(s: string, prefix: string) {
    |prefix| <= |s| && s[..|prefix|] == prefix
  }

  /** `part` occurs in `s` starting at position `i`. */
  predicate OccursAt(s: string, part: string, i: int) {
    0 <= i <= |s| - |part| && s[i..i + |part|] == part
  }

  /** `s.contains(part)`, decided by trying every starting position from the left. */
  predicate Contains(s: string, part: string)
    decreases |s|
  {
    StartsWith(s, part) || (0 < |s| && Contains(s[1..], part))
  }

  /** `Contains` holds exactly when `part` occurs in `s` at some position. */
  lemma {:induction false} ContainsOccurs(s: string, part: string)
    ensures Contains(s, part) <==> exists i :: OccursAt(s, part, i)
    decreases |s|
  {
    if StartsWith(s, part) {
      assert OccursAt(s, part, 0);
    }
    if 0 < |s| {
      ContainsOccurs(s[1..], part);
      if exists i :: OccursAt(s, part, i) {
        var i :| OccursAt(s, part, i);
        if 0 < i {
          assert s[1..][i - 1..i - 1 + |part|] == part;
          assert OccursAt(s[1..], part, i - 1);
        }
      }
      if Contains(s[1..], part) && !StartsWith(s, part) {
        var i :| OccursAt(s[1..], part, i);
        assert s[i + 1..i + 1 + |part|] == part;
        assert OccursAt(s, part, i + 1);
      }
    } else {
      if exists i :: OccursAt(s, part, i) {
        var i :| OccursAt(s, part, i);
        assert i == 0 && |part| == 0;
        assert StartsWith(s, part);
      }
    }
  }

  /** `replaceAll("[^0-9]", "")`: the ASCII digits of `s`, in order. */
  function KeepDigits(s: string): (r: string)
    ensures AllDigits(r) && |r| <= |s|
    ensures AllDigits(s) ==> r == s
  {
    if |s| == 0 then []
    else if IsDigit(s[0]) then [s[0]] + KeepDigits(s[1..])
    else KeepDigits(s[1..])
  }

  /** A single character survives exactly when it is a digit; every other character is deleted. */
  lemma KeepDigitsChar(c: char)
    ensures KeepDigits([c]) == if IsDigit(c) then [c] else []
  {
    assert [c][1..] == [];
  }

  /** Keeping digits commutes with concatenation. */
  lemma {:induction false} KeepDigitsAppend(a: string, b: string)
    ensures KeepDigits(a + b) == KeepDigits(a) + KeepDigits(b)
    decreases |a|
  {
    if 0 < |a| {
      assert (a + b)[0] == a[0];
      assert (a + b)[1..] == a[1..] + b;
      KeepDigitsAppend(a[1..], b);
      if IsDigit(a[0]) {
        assert KeepDigits(a + b) == [a[0]] + KeepDigits(a[1..] + b);
      } else {
        assert KeepDigits(a + b) == KeepDigits(a[1..] + b);
      }
    } else {
      assert a + b == b;
    }
  }

  /** The characters `String.trim` removes: every code point up to and including ' '. */
  predicate IsBlank(c: char) {
    c <= ' '
  }

  /** Drops leading blanks: the result is the suffix of `s` that starts at its first non-blank. */
  function TrimStart(s: string): (r: string)
    ensures |r| <= |s| && r == s[|s| - |r|..]
    ensures forall i :: 0 <= i < |s| - |r| ==> IsBlank(s[i])
    ensures |r| == 0 || !IsBlank(r[0])
  {
    if 0 < |s| && IsBlank(s[0]) then TrimStart(s[1..]) else s
  }

  /** Drops trailing blanks: the result is the prefix of `s` that ends at its last non-blank. */
  function TrimEnd(s: string): (r: string)
    ensures |r| <= |s| && r == s[..|r|]
    ensures forall i :: |r| <= i < |s| ==> IsBlank(s[i])
    ensures |r| == 0 || !IsBlank(r[|r| - 1])
  {
    if 0 < |s| && IsBlank(s[|s| - 1]) then TrimEnd(s[..|s| - 1]) else s
  }

  /** `String.trim`: drops blanks at both ends, so the result neither starts nor ends with one. */
  function Trim(s: string): (r: string)
    ensures |r| <= |s|
    ensures |r| == 0 || (!IsBlank(r[0]) && !IsBlank(r[|r| - 1]))
  {
    TrimEnd(TrimStart(s))
  }

  /** What `trim` keeps is a contiguous slice of its input, and it keeps nothing only from an all-blank string. */
  lemma TrimSlice(s: string)
    ensures exists i :: OccursAt(s, Trim(s), i)
    ensures |Trim(s)| == 0 <==> forall i :: 0 <= i < |s| ==> IsBlank(s[i])
  {
    var t := TrimStart(s);
    assert Trim(s) == TrimEnd(t);
    assert OccursAt(s, Trim(s), |s| - |t|);
  }

  /** The fields of a CSV line: the pieces between commas, in order. */
  function Split(s: string): (r: seq<string>)
    ensures 0 < |r|
  {
    if |s| == 0 then [""]
    else
      var rest := Split(s[1..]);
      if s[0] == ',' then [""] + rest else [[s[0]] + rest[0]] + rest[1..]
  }

  /** The fields joined with commas, as one line. */
  function Join(fields: seq<string>): string
    requires 0 < |fields|
  {
    if |fields| == 1 then fields[0] else fields[0] + "," + Join(fields[1..])
  }

  predicate NoComma(fields: seq<string>) {
    forall i :: 0 <= i < |fields| ==> ',' !in fields[i]
  }

  /** Splitting a comma-free field followed by a comma peels that field off. */
  lemma {:induction false} SplitField(a: string, b: string)
    requires ',' !in a
    ensures Split(a + "," + b) == [a] + Split(b)
    decreases |a|
  {
    if 0 < |a| {
      assert (a + "," + b)[1..] == a[1..] + "," + b;
      SplitField(a[1..], b);
      assert [a[0]] + a[1..] == a;
    } else {
      assert a + "," + b == "," + b;
      assert ("," + b)[1..] == b;
    }
  }

  /** A comma-free string is a single field. */
  lemma {:induction false} SplitSingle(a: string)
    requires ',' !in a
    ensures Split(a) == [a]
    decreases |a|
  {
    if 0 < |a| {
      SplitSingle(a[1..]);
      assert [a[0]] + a[1..] == a;
    }
  }

  /** Splitting a joined line gives back exactly the fields, when none of them holds a comma. */
  lemma {:induction false} SplitJoin(fields: seq<string>)
    requires 0 < |fields| && NoComma(fields)
    ensures Split(Join(fields)) == fields
    decreases |fields|
  {
    if |fields| == 1 {
      SplitSingle(fields[0]);
    } else {
      SplitJoin(fields[1..]);
      SplitField(fields[0], Join(fields[1..]));
      assert [fields[0]] + fields[1..] == fields;
    }
  }
}
