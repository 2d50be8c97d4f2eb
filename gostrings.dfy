/**
 * The part of Go's `strings` package the nursery stabilizer relies on:
 * `strings.SplitN` with a one-character separator, with `IndexByte` and
 * `Join` as its partners.  Go works on bytes; the separator used is '/',
 * an ASCII byte that never occurs inside a multi-byte UTF-8 sequence, so
 * characters and bytes give the same pieces.
 */
module GoStrings {
  import opened Wrappers

  /** Number of occurrences of `c` in `s`. */
  function Count(s: string, c: char): nat
  {
    multiset(s)[c]
  }

  /** Position of the first `c` in `s`, or None when there is none. */
  function IndexOf(s: string, c: char): (r: Option<nat>)
    ensures r.None? <==> c !in s
    ensures r.Some? ==> r.value < |s| && s[r.value] == c && c !in s[..r.value]
  {
    if |s| == 0 then None
    else if s[0] == c then Some(0)
    else match IndexOf(s[1..], c)
      case None => None
      case Some(i) =>
        assert s[..i + 1] == [s[0]] + s[1..][..i];
        Some(i + 1)
  }

  /** The pieces glued back together with `sep` between neighbours. */
  function Join(parts: seq<string>, sep: char): string
  {
    if |parts| == 0 then ""
    else if |parts| == 1 then parts[0]
    else parts[0] + [sep] + Join(parts[1..], sep)
  }

  /**
   * Go's `strings.SplitN(s, sep, n)`: for n > 0 at most n pieces, the last
   * one being the unsplit rest; for n == 0 no pieces; for n < 0 all pieces.
   */
  function SplitN(s: string, sep: char, n: int): (r: seq<string>)
    ensures n == 0 <==> r == []
    ensures n > 0 ==> |r| <= n
    decreases |s|
  {
    if n == 0 then []
    else if n == 1 then [s]
    else match IndexOf(s, sep)
      case None => [s]
      case Some(i) => [s[..i]] + SplitN(s[i + 1..], sep, n - 1)
  }

  /** The pieces join back to `s`. */
  lemma {:induction false} SplitNJoin(s: string, sep: char, n: int)
    requires n != 0
    ensures Join(SplitN(s, sep, n), sep) == s
    decreases |s|
  {
    if n != 1 {
      match IndexOf(s, sep)
      case None =>
      case Some(i) =>
        var rest := SplitN(s[i + 1..], sep, n - 1);
        SplitNStep(s, sep, n, i);
        SplitNJoin(s[i + 1..], sep, n - 1);
        JoinAtSeparator(s, sep, i, rest);
    }
  }

  /** Gluing the piece before position i to pieces that join to the rest after i restores `s`. */
  lemma JoinAtSeparator(s: string, sep: char, i: nat, rest: seq<string>)
    requires i < |s| && s[i] == sep
    requires |rest| >= 1 && Join(rest, sep) == s[i + 1..]
    ensures Join([s[..i]] + rest, sep) == s
  {
    JoinCons(s[..i], rest, sep);
    assert s == s[..i] + [sep] + s[i + 1..];
  }

  /** No piece but the last holds `sep`. */
  lemma {:induction false} SplitNPiecesFree(s: string, sep: char, n: int)
    ensures forall i :: 0 <= i < |SplitN(s, sep, n)| - 1 ==> sep !in SplitN(s, sep, n)[i]
    decreases |s|
  {
    if n != 0 && n != 1 {
      match IndexOf(s, sep)
      case None =>
      case Some(i) =>
        var rest := SplitN(s[i + 1..], sep, n - 1);
        assert forall k :: 0 <= k < |[s[..i]] + rest| - 1 ==> sep !in ([s[..i]] + rest)[k] by {
          SplitNPiecesFree(s[i + 1..], sep, n - 1);
          PiecesFreeCons(s[..i], rest, sep);
        }
        SplitNStep(s, sep, n, i);
    }
  }

  lemma PiecesFreeCons(head: string, rest: seq<string>, sep: char)
    requires sep !in head
    requires forall i :: 0 <= i < |rest| - 1 ==> sep !in rest[i]
    ensures forall i :: 0 <= i < |[head] + rest| - 1 ==> sep !in ([head] + rest)[i]
  {
    var r := [head] + rest;
    forall k | 1 <= k < |r| - 1
      ensures sep !in r[k]
    {
      assert r[k] == rest[k - 1];
    }
  }

  lemma JoinCons(head: string, rest: seq<string>, sep: char)
    requires |rest| >= 1
    ensures Join([head] + rest, sep) == head + [sep] + Join(rest, sep)
  {
    assert ([head] + rest)[1..] == rest;
  }

  lemma {:induction false} CountSplit(s: string, c: char, i: nat)
    requires i < |s| && s[i] == c && c !in s[..i]
    ensures Count(s, c) == Count(s[i + 1..], c) + 1
  {
    assert s == s[..i] + [c] + s[i + 1..];
    assert multiset(s) == multiset(s[..i]) + multiset{c} + multiset(s[i + 1..]);
  }

  /**
   * The number of pieces for a positive limit: one more than the number of
   * separators, capped at n.  So `SplitN(s, sep, 4)` has exactly 4 pieces iff
   * `s` has at least 3 separators.
   */
  lemma {:induction false} SplitNLength(s: string, sep: char, n: int)
    requires n > 0
    ensures |SplitN(s, sep, n)| == if Count(s, sep) + 1 < n then Count(s, sep) + 1 else n
    decreases |s|
  {
    if n != 1 {
      match IndexOf(s, sep)
      case None =>
        SplitNNoSeparator(s, sep, n);
      case Some(i) =>
        var tail := s[i + 1..];
        SplitNLengthStep(s, sep, n, i);
        SplitNLength(tail, sep, n - 1);
        CappedStep(|SplitN(s, sep, n)|, |SplitN(tail, sep, n - 1)|, Count(s, sep), Count(tail, sep), n);
    }
  }

  /** One more piece and one more separator keep the capped count. */
  lemma CappedStep(pieces: int, tailPieces: int, count: int, tailCount: int, n: int)
    requires pieces == tailPieces + 1 && count == tailCount + 1
    requires tailPieces == if tailCount + 1 < n - 1 then tailCount + 1 else n - 1
    ensures pieces == if count + 1 < n then count + 1 else n
  {
  }

  /** Without a separator there is one piece. */
  lemma SplitNNoSeparator(s: string, sep: char, n: int)
    requires n != 0 && IndexOf(s, sep).None?
    ensures |SplitN(s, sep, n)| == 1 && Count(s, sep) == 0
  {
  }

  /** Peeling the first piece removes one piece and one separator. */
  lemma SplitNLengthStep(s: string, sep: char, n: int, i: nat)
    requires n != 0 && n != 1 && IndexOf(s, sep) == Some(i)
    ensures |SplitN(s, sep, n)| == |SplitN(s[i + 1..], sep, n - 1)| + 1
    ensures Count(s, sep) == Count(s[i + 1..], sep) + 1
  {
    SplitNStep(s, sep, n, i);
    CountSplit(s, sep, i);
  }

  lemma SplitNFourPieces(s: string, sep: char)
    ensures |SplitN(s, sep, 4)| == 4 <==> Count(s, sep) >= 3
  {
    SplitNLength(s, sep, 4);
  }

  /** One step of the split: the piece before the first separator, then the rest split with one piece fewer. */
  lemma SplitNStep(s: string, sep: char, n: int, i: nat)
    requires n != 0 && n != 1 && IndexOf(s, sep) == Some(i)
    ensures SplitN(s, sep, n) == [s[..i]] + SplitN(s[i + 1..], sep, n - 1)
  {
  }

  /** The first separator of `a + ([sep] + rest)` is the one after `a` when `a` holds none. */
  lemma IndexAfterPrefix(a: string, sep: char, rest: string)
    requires sep !in a
    ensures IndexOf(a + ([sep] + rest), sep) == Some(|a|)
  {
    assert (a + ([sep] + rest))[|a|] == sep;
  }

  /** Splitting `a + ([sep] + rest)`, where `a` holds no separator, peels off `a`. */
  lemma SplitNAfterPrefix(a: string, sep: char, rest: string, n: int)
    requires sep !in a && n != 0 && n != 1
    ensures SplitN(a + ([sep] + rest), sep, n) == [a] + SplitN(rest, sep, n - 1)
  {
    IndexAfterPrefix(a, sep, rest);
    SplitNStep(a + ([sep] + rest), sep, n, |a|);
    SlicesAroundSeparator(a, sep, rest);
  }

  lemma SlicesAroundSeparator(a: string, sep: char, rest: string)
    ensures (a + ([sep] + rest))[..|a|] == a
    ensures (a + ([sep] + rest))[|a| + 1..] == rest
  {
  }

  /** A leading separator gives an empty first piece. */
  lemma SplitNLeading(sep: char, rest: string, n: int)
    requires n != 0 && n != 1
    ensures SplitN([sep] + rest, sep, n) == [[]] + SplitN(rest, sep, n - 1)
  {
    assert IndexOf([sep] + rest, sep) == Some(0);
    SplitNStep([sep] + rest, sep, n, 0);
    assert ([sep] + rest)[1..] == rest;
  }

  /** `account/container/rest` peels off the account and the container. */
  lemma SplitNTwoNames(sep: char, account: string, container: string, obj: string, n: int)
    requires sep !in account && sep !in container
    requires n >= 3
    ensures SplitN(account + ([sep] + (container + ([sep] + obj))), sep, n)
            == [account, container] + SplitN(obj, sep, n - 2)
  {
    var tail := container + ([sep] + obj);
    SplitNAfterPrefix(container, sep, obj, n - 1);
    SplitNAfterPrefix(account, sep, tail, n);
    ChainTwo(SplitN(account + ([sep] + tail), sep, n), SplitN(tail, sep, n - 1),
             SplitN(obj, sep, n - 2), account, container);
  }

  lemma ChainTwo<T>(w: seq<T>, t: seq<T>, rest: seq<T>, x: T, y: T)
    requires w == [x] + t && t == [y] + rest
    ensures w == [x, y] + rest
  {
  }

  /**
   * A path `/account/container/rest`, split with a limit of 4 or more,
   * gives an empty piece, the account, the container, and then whatever
   * splitting the rest with three pieces fewer gives.
   */
  lemma SplitNPathPieces(sep: char, account: string, container: string, obj: string, n: int)
    requires sep !in account && sep !in container
    requires n >= 4
    ensures SplitN([sep] + (account + ([sep] + (container + ([sep] + obj)))), sep, n)
            == [[], account, container] + SplitN(obj, sep, n - 3)
  {
    var mid := account + ([sep] + (container + ([sep] + obj)));
    var rest := SplitN(obj, sep, n - 3);
    assert SplitN([sep] + mid, sep, n) == [[]] + SplitN(mid, sep, n - 1) by {
      SplitNLeading(sep, mid, n);
    }
    assert SplitN(mid, sep, n - 1) == [account, container] + rest by {
      SplitNTwoNames(sep, account, container, obj, n - 1);
    }
    ChainOne(SplitN([sep] + mid, sep, n), SplitN(mid, sep, n - 1), rest, [], account, container);
  }

  lemma ChainOne<T>(w: seq<T>, m: seq<T>, rest: seq<T>, x: T, y: T, z: T)
    requires w == [x] + m && m == [y, z] + rest
    ensures w == [x, y, z] + rest
  {
  }

  /**
   * An object path `/account/container/object` splits with limit 4 into an
   * empty piece and the three names, whatever separators the object name holds.
   */
  lemma SplitNObjectPath(sep: char, account: string, container: string, obj: string)
    requires sep !in account && sep !in container
    ensures SplitN([sep] + (account + ([sep] + (container + ([sep] + obj)))), sep, 4) == ["", account, container, obj]
  {
    SplitNPathPieces(sep, account, container, obj, 4);
    assert SplitN(obj, sep, 1) == [obj];
  }

  /** With limit 4 the last piece keeps every further separator. */
  lemma SplitNKeepsTail(name: string)
    requires name == "/a/c/o/x"
    ensures SplitN(name, '/', 4) == ["", "a", "c", "o/x"]
  {
    assert name == ['/'] + ("a" + (['/'] + ("c" + (['/'] + "o/x"))));
    SplitNObjectPath('/', "a", "c", "o/x");
  }
}
