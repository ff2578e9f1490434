/** The few `java.lang.String` operations the services rely on, over `seq<char>`:
    ASCII lower-casing, `contains`, `String.join` and `split` with a one-character literal delimiter.
 */
module Text {

  /** `Character.toLowerCase`, restricted to ASCII letters. */
  function LowerChar(c: char): char
  {
    if 'A' <= c <= 'Z' then (c as int - 'A' as int + 'a' as int) as char else c
  }

  predicate IsUpper(c: char)
  {
    'A' <= c <= 'Z'
  }

  /** `s.toLowerCase()` for ASCII text: the same length, each letter lowered, no upper-case letter left. */
  function ToLower(s: string): (r: string)
    ensures |r| == |s|
    ensures forall i :: 0 <= i < |s| ==> r[i] == LowerChar(s[i])
    ensures forall i :: 0 <= i < |r| ==> !IsUpper(r[i])
  {
    if s == [] then [] else [LowerChar(s[0])] + ToLower(s[1..])
  }

  /** Lower-casing twice is lower-casing once. */
  lemma ToLowerIdempotent(s: string)
    ensures ToLower(ToLower(s)) == ToLower(s)
  {
    var once := ToLower(s);
    var twice := ToLower(once);
    assert forall i :: 0 <= i < |once| ==> twice[i] == once[i] by {
      forall i | 0 <= i < |once|
        ensures twice[i] == once[i]
      {
        assert !IsUpper(once[i]);
      }
    }
  }

  predicate IsPrefix(p: string, s: string)
  {
    |p| <= |s| && s[..|p|] == p
  }

  /** `p` occurs in `s` starting at index `i`. */
  predicate OccursAt(s: string, p: string, i: int)
  {
    0 <= i && i + |p| <= |s| && s[i..i + |p|] == p
  }

  /** `s.contains(p)`, computed by sliding a window over `s`. */
  predicate Contains(s: string, p: string)
    decreases |s|
  {
    IsPrefix(p, s) || (|s| > 0 && Contains(s[1..], p))
  }

  /** An occurrence anywhere makes `Contains` true. */
  lemma {:induction false} ContainsAt(s: string, p: string, i: int)
    requires OccursAt(s, p, i)
    ensures Contains(s, p)
    decreases i
  {
    if i == 0 {
      assert IsPrefix(p, s);
    } else {
      assert s[1..][i - 1..i - 1 + |p|] == s[i..i + |p|];
      ContainsAt(s[1..], p, i - 1);
    }
  }

  /** `Contains` is true only when there is an occurrence. */
  lemma {:induction false} ContainsHasOccurrence(s: string, p: string) returns (i: int)
    requires Contains(s, p)
    ensures OccursAt(s, p, i)
    decreases |s|
  {
    if IsPrefix(p, s) {
      i := 0;
    } else {
      var j := ContainsHasOccurrence(s[1..], p);
      assert s[1..][j..j + |p|] == s[j + 1..j + 1 + |p|];
      i := j + 1;
    }
  }

  /** `Contains` means: `p` occurs somewhere in `s`. */
  lemma ContainsIff(s: string, p: string)
    ensures Contains(s, p) <==> exists i :: OccursAt(s, p, i)
  {
    if Contains(s, p) {
      var i := ContainsHasOccurrence(s, p);
    }
    if i :| OccursAt(s, p, i) {
      ContainsAt(s, p, i);
    }
  }

  /** Text that contains `p` still contains it after anything is put in front. */
  lemma {:induction false} ContainsAfterPrefix(a: string, b: string, p: string)
    requires Contains(b, p)
    ensures Contains(a + b, p)
    decreases |a|
  {
    if a == [] {
      assert a + b == b;
    } else {
      assert (a + b)[1..] == a[1..] + b;
      ContainsAfterPrefix(a[1..], b, p);
    }
  }

  /** `String.join(sep, parts)`. */
  function Join(parts: seq<string>, sep: string): string
  {
    if |parts| == 0 then ""
    else if |parts| == 1 then parts[0]
    else parts[0] + sep + Join(parts[1..], sep)
  }

  /** Every part can be found in the joined text. */
  lemma {:induction false} JoinContainsPart(parts: seq<string>, sep: string, k: int)
    requires 0 <= k < |parts|
    ensures Contains(Join(parts, sep), parts[k])
    decreases k
  {
    if k == 0 {
      if |parts| == 1 {
        assert IsPrefix(parts[0], Join(parts, sep));
      } else {
        assert Join(parts, sep)[..|parts[0]|] == parts[0];
        assert IsPrefix(parts[0], Join(parts, sep));
      }
    } else {
      JoinContainsPart(parts[1..], sep, k - 1);
      ContainsAfterPrefix(parts[0] + sep, Join(parts[1..], sep), parts[k]);
    }
  }

  /** The pieces of `s` between occurrences of `d`, empty pieces included: the reference meaning of
      splitting, with one more piece than there are occurrences of `d`. */
  function Pieces(s: string, d: char): (r: seq<string>)
    ensures |r| >= 1
    decreases |s|
  {
    if s == [] then [""]
    else
      var rest := Pieces(s[1..], d);
      if s[0] == d then [""] + rest else [[s[0]] + rest[0]] + rest[1..]
  }

  lemma JoinConsHead(a: string, b: string, tail: seq<string>, sep: string)
    ensures Join([a + b] + tail, sep) == a + Join([b] + tail, sep)
  {
    if tail != [] {
      assert ([a + b] + tail)[1..] == tail;
      assert ([b] + tail)[1..] == tail;
    }
  }

  /** Joining the pieces with the delimiter gives back the text. */
  lemma {:induction false} JoinPieces(s: string, d: char)
    ensures Join(Pieces(s, d), [d]) == s
    decreases |s|
  {
    if s != [] {
      var rest := Pieces(s[1..], d);
      JoinPieces(s[1..], d);
      if s[0] == d {
        assert ([""] + rest)[1..] == rest;
      } else {
        JoinConsHead([s[0]], rest[0], rest[1..], [d]);
        assert [rest[0]] + rest[1..] == rest;
      }
    }
  }

  /** No piece contains the delimiter. */
  lemma {:induction false} PiecesFree(s: string, d: char)
    ensures forall i :: 0 <= i < |Pieces(s, d)| ==> d !in Pieces(s, d)[i]
    decreases |s|
  {
    if s != [] {
      PiecesFree(s[1..], d);
    }
  }

  /** Text without the delimiter is a single piece. */
  lemma {:induction false} PiecesOfFree(a: string, d: char)
    requires d !in a
    ensures Pieces(a, d) == [a]
    decreases |a|
  {
    if a != [] {
      PiecesOfFree(a[1..], d);
      assert [a[0]] + a[1..] == a;
    }
  }

  /** Splitting at the first delimiter: the text before it is the first piece. */
  lemma {:induction false} PiecesAfterFirst(a: string, b: string, d: char)
    requires d !in a
    ensures Pieces(a + [d] + b, d) == [a] + Pieces(b, d)
    decreases |a|
  {
    var s := a + [d] + b;
    if a == [] {
      assert s[1..] == b;
    } else {
      assert s[1..] == a[1..] + [d] + b;
      PiecesAfterFirst(a[1..], b, d);
      assert [a[0]] + a[1..] == a;
    }
  }

  /** Splitting undoes joining, for parts free of the delimiter. */
  lemma {:induction false} PiecesJoin(parts: seq<string>, d: char)
    requires |parts| >= 1
    requires forall i :: 0 <= i < |parts| ==> d !in parts[i]
    ensures Pieces(Join(parts, [d]), d) == parts
    decreases |parts|
  {
    if |parts| == 1 {
      PiecesOfFree(parts[0], d);
    } else {
      PiecesJoin(parts[1..], d);
      PiecesAfterFirst(parts[0], Join(parts[1..], [d]), d);
      assert [parts[0]] + parts[1..] == parts;
    }
  }

  /** The longest prefix of `ps` that does not end in an empty string. */
  function DropTrailingEmpty(ps: seq<string>): (r: seq<string>)
    ensures |r| <= |ps| && r == ps[..|r|]
    ensures forall i :: |r| <= i < |ps| ==> ps[i] == ""
    ensures |r| == 0 || r[|r| - 1] != ""
  {
    if |ps| == 0 then ps
    else if ps[|ps| - 1] == "" then DropTrailingEmpty(ps[..|ps| - 1])
    else ps
  }

  /** Java's `s.split(d)` for a one-character delimiter that is not a regular-expression meta character
      (the fast path of `String.split` with limit 0): when `d` does not occur the result is `[s]`, even
      for the empty string; otherwise it is the pieces with the trailing empty ones removed. */
  function SplitOn(s: string, d: char): (r: seq<string>)
    ensures |r| <= |Pieces(s, d)| && r == Pieces(s, d)[..|r|]
    ensures forall i :: |r| <= i < |Pieces(s, d)| ==> Pieces(s, d)[i] == ""
    ensures d in s && |r| > 0 ==> r[|r| - 1] != ""
    ensures d !in s ==> r == [s]
    ensures forall i :: 0 <= i < |r| ==> d !in r[i]
  {
    PiecesFree(s, d);
    if d !in s then
      PiecesOfFree(s, d);
      [s]
    else
      DropTrailingEmpty(Pieces(s, d))
  }

  /** Splitting undoes joining, when no part contains the delimiter and the last part is not empty
      (a trailing empty part would be dropped). */
  lemma SplitOnJoin(parts: seq<string>, d: char)
    requires |parts| >= 1 && parts[|parts| - 1] != ""
    requires forall i :: 0 <= i < |parts| ==> d !in parts[i]
    ensures SplitOn(Join(parts, [d]), d) == parts
  {
    var s := Join(parts, [d]);
    PiecesJoin(parts, d);
    if d !in s {
      PiecesOfFree(s, d);
    }
  }

  /** Text that splits into several pieces contains the delimiter. */
  lemma SeveralPiecesHaveDelimiter(s: string, d: char)
    requires |Pieces(s, d)| >= 2
    ensures d in s
  {
    if d !in s {
      PiecesOfFree(s, d);
    }
  }

  /** Removing trailing empty strings from `ps` followed by `n` empty strings gives back `ps`, when the
      last of `ps` is not empty. */
  lemma {:induction false} DropTrailingEmptyAppended(ps: seq<string>, n: nat)
    requires |ps| >= 1 && ps[|ps| - 1] != ""
    ensures DropTrailingEmpty(ps + seq(n, _ => "")) == ps
    decreases n
  {
    var all := ps + seq(n, _ => "");
    if n == 0 {
      assert all == ps;
    } else {
      assert all[..|all| - 1] == ps + seq(n - 1, _ => "");
      DropTrailingEmptyAppended(ps, n - 1);
    }
  }

  /** Splitting drops trailing empty pieces: joining parts followed by `n` empty strings and splitting
      again gives the parts alone. */
  lemma SplitOnDropsTrailingEmpty(parts: seq<string>, d: char, n: nat)
    requires |parts| >= 1 && parts[|parts| - 1] != ""
    requires forall i :: 0 <= i < |parts| ==> d !in parts[i]
    ensures SplitOn(Join(parts + seq(n, _ => ""), [d]), d) == parts
  {
    var all := parts + seq(n, _ => "");
    if n == 0 {
      assert all == parts;
      SplitOnJoin(parts, d);
    } else {
      var s := Join(all, [d]);
      assert forall i :: 0 <= i < |all| ==> d !in all[i];
      PiecesJoin(all, d);
      SeveralPiecesHaveDelimiter(s, d);
      DropTrailingEmptyAppended(parts, n);
    }
  }
}
