/**
 * The java.lang and android.text behaviours the Java layers rely on:
 * 32-bit int arithmetic, String.trim, String.split on a one-character
 * pattern, TextUtils.isEmpty, and the IllegalArgumentException that the
 * document-store layer throws.
 */
module JavaLang {
  import opened Wrappers

  const TwoTo32: int := 0x1_0000_0000
  const MinInt: int := -0x8000_0000
  const MaxInt: int := 0x7FFF_FFFF

  /** A Java `int`. */
  type Int32 = x: int | -0x8000_0000 <= x <= 0x7FFF_FFFF

  /** A thrown IllegalArgumentException and its message. */
  datatype Exception = IllegalArgumentException(message: string)

  /** The value a Java `int` addition or subtraction produces: two's-complement wrap-around. */
  function Wrap32(x: int): (r: Int32)
    ensures MinInt <= x <= MaxInt ==> r == x
  {
    (x - MinInt) % TwoTo32 + MinInt
  }

  lemma {:induction false} ModShift(a: int, k: int)
    ensures (a + k * TwoTo32) % TwoTo32 == a % TwoTo32
    decreases if k < 0 then -k else k
  {
    if k > 0 {
      ModShift(a, k - 1);
      assert a + k * TwoTo32 == (a + (k - 1) * TwoTo32) + TwoTo32;
    } else if k < 0 {
      ModShift(a, k + 1);
      assert a + k * TwoTo32 == (a + (k + 1) * TwoTo32) - TwoTo32;
    }
  }

  /** Wrap-around only depends on the value modulo 2^32. */
  lemma WrapShift(x: int, k: int)
    ensures Wrap32(x + k * TwoTo32) == Wrap32(x)
  {
    ModShift(x - MinInt, k);
    assert x + k * TwoTo32 - MinInt == (x - MinInt) + k * TwoTo32;
  }

  /**
   * For any two ints c and q, `c + (q - c)` evaluated in 32-bit arithmetic
   * gives back q, however the subtraction overflows.
   */
  lemma DeltaRoundTrip(c: Int32, q: Int32)
    ensures Wrap32(c + Wrap32(q - c)) == q
  {
    var d := q - c;
    var w := Wrap32(d);
    var k := (d - MinInt) / TwoTo32;
    assert d - MinInt == k * TwoTo32 + (d - MinInt) % TwoTo32;
    assert w == d - k * TwoTo32;
    assert c + w == q + (-k) * TwoTo32;
    WrapShift(q, -k);
  }

  /** android.text.TextUtils.isEmpty: null or of length 0. */
  predicate IsEmpty(s: Option<string>)
  {
    s == None || |s.value| == 0
  }

  /** The characters String.trim removes from both ends: every char up to U+0020. */
  predicate IsTrimmable(c: char)
  {
    c <= ' '
  }

  function TrimStart(s: string): (r: string)
    ensures |r| <= |s| && r == s[|s| - |r|..]
    ensures r == [] || !IsTrimmable(r[0])
    ensures forall i :: 0 <= i < |s| - |r| ==> IsTrimmable(s[i])
    decreases |s|
  {
    if |s| > 0 && IsTrimmable(s[0]) then TrimStart(s[1..]) else s
  }

  function TrimEnd(s: string): (r: string)
    ensures |r| <= |s| && r == s[..|r|]
    ensures r == [] || !IsTrimmable(r[|r| - 1])
    ensures forall i :: |r| <= i < |s| ==> IsTrimmable(s[i])
    decreases |s|
  {
    if |s| > 0 && IsTrimmable(s[|s| - 1]) then TrimEnd(s[..|s| - 1]) else s
  }

  /** String.trim. */
  function Trim(s: string): string
  {
    TrimEnd(TrimStart(s))
  }

  /** How many characters String.trim removes from the front. */
  function TrimOffset(s: string): (a: nat)
    ensures a <= |s|
  {
    |s| - |TrimStart(s)|
  }

  /**
   * The trimmed string is the run of s starting at TrimOffset(s), neither
   * of its ends is trimmable, and every character of s outside it is.
   */
  lemma TrimIsCore(s: string)
    ensures TrimOffset(s) + |Trim(s)| <= |s|
    ensures Trim(s) == s[TrimOffset(s)..TrimOffset(s) + |Trim(s)|]
    ensures Trim(s) == [] || (!IsTrimmable(Trim(s)[0]) && !IsTrimmable(Trim(s)[|Trim(s)| - 1]))
    ensures forall i :: 0 <= i < |s| && !IsTrimmable(s[i]) ==> TrimOffset(s) <= i < TrimOffset(s) + |Trim(s)|
  {
    TrimSlice(s);
    TrimEnds(s);
    TrimCovers(s);
  }

  /** The trimmed string is the slice of s from TrimOffset(s). */
  lemma TrimSlice(s: string)
    ensures TrimOffset(s) + |Trim(s)| <= |s|
    ensures Trim(s) == s[TrimOffset(s)..TrimOffset(s) + |Trim(s)|]
  {
    var t := TrimStart(s);
    var r := TrimEnd(t);
    var a := |s| - |t|;
    assert t == s[a..];
    assert r == t[..|r|];
    PrefixOfSuffix(s, a, |r|);
  }

  /** Neither end of the trimmed string is trimmable. */
  lemma TrimEnds(s: string)
    ensures Trim(s) == [] || (!IsTrimmable(Trim(s)[0]) && !IsTrimmable(Trim(s)[|Trim(s)| - 1]))
  {
    var t := TrimStart(s);
    var r := TrimEnd(t);
    if r != [] {
      assert r == t[..|r|];
      assert r[0] == t[0];
    }
  }

  /** Every character of s that is not trimmable lies inside the trimmed slice. */
  lemma TrimCovers(s: string)
    ensures forall i :: 0 <= i < |s| && !IsTrimmable(s[i]) ==> TrimOffset(s) <= i < TrimOffset(s) + |Trim(s)|
  {
    var t := TrimStart(s);
    var r := TrimEnd(t);
    var a := |s| - |t|;
    assert t == s[a..];
    forall j | a + |r| <= j < |s|
      ensures IsTrimmable(s[j])
    {
      assert s[j] == t[j - a];
    }
    CoreFacts(s, a, |r|);
  }

  /** The first k characters of s[a..] are s[a..a + k]. */
  lemma PrefixOfSuffix(s: string, a: nat, k: nat)
    requires a + k <= |s|
    ensures s[a..][..k] == s[a..a + k]
  {
  }

  /** When everything before a and from a + k on is trimmable, every other character lies in [a, a + k). */
  lemma CoreFacts(s: string, a: nat, k: nat)
    requires a + k <= |s|
    requires forall i :: 0 <= i < a ==> IsTrimmable(s[i])
    requires forall i :: a + k <= i < |s| ==> IsTrimmable(s[i])
    ensures forall i :: 0 <= i < |s| && !IsTrimmable(s[i]) ==> a <= i < a + k
  {
  }

  /** trim() is empty exactly when every character is trimmable. */
  lemma TrimEmptyIff(s: string)
    ensures Trim(s) == [] <==> forall i :: 0 <= i < |s| ==> IsTrimmable(s[i])
  {
    TrimIsCore(s);
    if Trim(s) != [] {
      assert Trim(s)[0] == s[TrimOffset(s)];
    }
  }

  /** Leading or trailing padding does not change the trimmed string. */
  lemma TrimPadding(s: string, c: char)
    requires IsTrimmable(c)
    ensures Trim([c] + s) == Trim(s)
    ensures Trim(s + [c]) == Trim(s)
  {
    assert ([c] + s)[1..] == s;
    TrimStartPadded(s, c);
  }

  lemma {:induction false} TrimStartPadded(s: string, c: char)
    requires IsTrimmable(c)
    ensures TrimEnd(TrimStart(s + [c])) == TrimEnd(TrimStart(s))
    decreases |s|
  {
    if |s| > 0 && IsTrimmable(s[0]) {
      assert (s + [c])[1..] == s[1..] + [c];
      TrimStartPadded(s[1..], c);
    } else if |s| == 0 {
      assert TrimStart([c]) == TrimStart([]);
    } else {
      var t := s + [c];
      assert TrimStart(t) == t;
      assert t[..|t| - 1] == s;
    }
  }

  /** trim() is idempotent. */
  lemma TrimIdempotent(s: string)
    ensures Trim(Trim(s)) == Trim(s)
  {
    var r := Trim(s);
    if r != [] {
      TrimIsCore(s);
      assert TrimStart(r) == r;
      assert TrimEnd(r) == r;
    }
  }

  /**
   * Every piece of s between occurrences of sep, trailing empty pieces
   * included: the splitting String.split does before its clean-up.
   */
  function Pieces(s: string, sep: char): (parts: seq<string>)
    ensures |parts| >= 1
    ensures forall i :: 0 <= i < |parts| ==> sep !in parts[i]
    decreases |s|
  {
    if |s| == 0 then [""]
    else
      var rest := Pieces(s[1..], sep);
      if s[0] == sep then [""] + rest else [[s[0]] + rest[0]] + rest[1..]
  }

  /** Drops the empty strings at the end of a list of pieces. */
  function DropTrailingEmpty(parts: seq<string>): (r: seq<string>)
    ensures |r| <= |parts| && r == parts[..|r|]
    ensures r == [] || r[|r| - 1] != ""
    ensures forall i :: |r| <= i < |parts| ==> parts[i] == ""
    decreases |parts|
  {
    if |parts| > 0 && parts[|parts| - 1] == "" then DropTrailingEmpty(parts[..|parts| - 1]) else parts
  }

  /**
   * String.split with a one-character pattern and no limit: a string
   * without the separator is returned whole (even when empty); otherwise
   * the pieces are returned without their trailing empty strings.
   */
  function Split(s: string, sep: char): (parts: seq<string>)
    ensures sep !in s ==> parts == [s]
    ensures forall i :: 0 <= i < |parts| ==> sep !in parts[i]
  {
    if sep !in s then [s] else DropTrailingEmpty(Pieces(s, sep))
  }

  /** The pieces joined back together with the separator between neighbours (String.join). */
  function JoinWith(parts: seq<string>, sep: char): (s: string)
    ensures |parts| == 0 ==> s == ""
    ensures |parts| >= 1 ==> parts[0] <= s
    decreases |parts|
  {
    if |parts| == 0 then ""
    else if |parts| == 1 then parts[0]
    else parts[0] + [sep] + JoinWith(parts[1..], sep)
  }

  /** Joining the pieces with the separator gives the cut string back, for every string. */
  lemma {:induction false} PiecesJoinBack(s: string, sep: char)
    ensures JoinWith(Pieces(s, sep), sep) == s
    decreases |s|
  {
    if |s| > 0 {
      var rest := Pieces(s[1..], sep);
      PiecesJoinBack(s[1..], sep);
      assert [s[0]] + s[1..] == s;
      if s[0] == sep {
        assert ([""] + rest)[1..] == rest;
      } else {
        JoinCons(s[0], rest, sep);
      }
    }
  }

  /** Putting a character in front of the first piece puts it in front of the join. */
  lemma JoinCons(c: char, parts: seq<string>, sep: char)
    requires |parts| >= 1
    ensures JoinWith([[c] + parts[0]] + parts[1..], sep) == [c] + JoinWith(parts, sep)
  {
    var joined := [[c] + parts[0]] + parts[1..];
    if |parts| >= 2 {
      assert joined[1..] == parts[1..];
      assert [c] + parts[0] + [sep] + JoinWith(parts[1..], sep) == [c] + (parts[0] + [sep] + JoinWith(parts[1..], sep));
    }
  }

  /** Appending one more piece appends the separator and that piece. */
  lemma {:induction false} JoinSnoc(parts: seq<string>, x: string, sep: char)
    requires |parts| >= 1
    ensures JoinWith(parts + [x], sep) == JoinWith(parts, sep) + [sep] + x
    decreases |parts|
  {
    if |parts| == 1 {
      assert (parts + [x])[1..] == [x];
    } else {
      assert (parts + [x])[1..] == parts[1..] + [x];
      JoinSnoc(parts[1..], x, sep);
    }
  }

  /** Dropping trailing empty pieces only drops separators from the end of the join. */
  lemma {:induction false} DropJoin(parts: seq<string>, sep: char)
    ensures JoinWith(DropTrailingEmpty(parts), sep) <= JoinWith(parts, sep)
    ensures forall i :: |JoinWith(DropTrailingEmpty(parts), sep)| <= i < |JoinWith(parts, sep)| ==>
      JoinWith(parts, sep)[i] == sep
    decreases |parts|
  {
    var n := |parts|;
    if n > 0 && parts[n - 1] == "" {
      var init := parts[..n - 1];
      DropJoin(init, sep);
      assert init + [parts[n - 1]] == parts;
      if n >= 2 {
        JoinSnoc(init, "", sep);
      }
    }
  }

  /**
   * What String.split keeps: its pieces, joined with the separator, are
   * the input with a (possibly empty) run of separators removed from its
   * end; and the last piece kept is not empty.
   */
  lemma SplitJoinsBack(s: string, sep: char)
    ensures JoinWith(Split(s, sep), sep) <= s
    ensures forall i :: |JoinWith(Split(s, sep), sep)| <= i < |s| ==> s[i] == sep
    ensures sep in s ==> Split(s, sep) == [] || Split(s, sep)[|Split(s, sep)| - 1] != ""
  {
    if sep in s {
      PiecesJoinBack(s, sep);
      DropJoin(Pieces(s, sep), sep);
    }
  }

  lemma {:induction false} PiecesWithout(s: string, sep: char)
    requires sep !in s
    ensures Pieces(s, sep) == [s]
    decreases |s|
  {
    if |s| > 0 {
      PiecesWithout(s[1..], sep);
      assert [s[0]] + s[1..] == s;
    }
  }

  lemma {:induction false} PiecesJoined(x: string, y: string, sep: char)
    requires sep !in x && sep !in y
    ensures Pieces(x + [sep] + y, sep) == [x, y]
    decreases |x|
  {
    var s := x + [sep] + y;
    if |x| == 0 {
      assert s[1..] == y;
      PiecesWithout(y, sep);
    } else {
      assert s[1..] == x[1..] + [sep] + y;
      PiecesJoined(x[1..], y, sep);
      assert [x[0]] + x[1..] == x;
    }
  }

  /** Splitting two separator-free strings joined by the separator gives them back, provided the second is not empty. */
  lemma SplitJoined(x: string, y: string, sep: char)
    requires sep !in x && sep !in y && y != ""
    ensures Split(x + [sep] + y, sep) == [x, y]
  {
    var s := x + [sep] + y;
    assert s[|x|] == sep;
    PiecesJoined(x, y, sep);
  }

  /** A trailing separator leaves a single piece: "abc:" splits into ["abc"]. */
  lemma SplitTrailingSeparator(x: string, sep: char)
    requires sep !in x && x != ""
    ensures Split(x + [sep], sep) == [x]
  {
    var s := x + [sep];
    assert s[|x|] == sep;
    assert s == x + [sep] + "";
    PiecesJoined(x, "", sep);
    assert [x, ""][..1] == [x];
    assert DropTrailingEmpty([x, ""]) == DropTrailingEmpty([x]) == [x];
  }
}
