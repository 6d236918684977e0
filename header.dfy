/** The Authorization-header rule of every protected route: the header
    (empty when absent) is split on runs of whitespace, as Python's
    `str.split()` with no argument does, and accepted only when it gives
    exactly two parts of which the first is `Bearer`. */
module Header {
  import opened Records

  /** Python's `str.isspace` on one character: the separators of `str.split()`. */
  predicate IsSpace(c: char)
  {
    var n := c as int;
    (9 <= n <= 13) || (28 <= n <= 32) || n == 0x85 || n == 0xA0 || n == 0x1680
    || (0x2000 <= n <= 0x200A) || n == 0x2028 || n == 0x2029 || n == 0x202F
    || n == 0x205F || n == 0x3000
  }

  predicate AllSpace(s: string)
  {
    forall i :: 0 <= i < |s| ==> IsSpace(s[i])
  }

  /** A non-empty run of non-whitespace characters: what `split()` yields. */
  predicate IsWord(s: string)
  {
    s != [] && forall i :: 0 <= i < |s| ==> !IsSpace(s[i])
  }

  /** The first position at or after `i` that holds no whitespace, or the end. */
  function SkipSpaces(s: string, i: nat): (j: nat)
    requires i <= |s|
    ensures i <= j <= |s|
    ensures forall k :: i <= k < j ==> IsSpace(s[k])
    ensures j == |s| || !IsSpace(s[j])
    decreases |s| - i
  {
    if i < |s| && IsSpace(s[i]) then SkipSpaces(s, i + 1) else i
  }

  /** The first position at or after `i` that holds whitespace, or the end. */
  function SkipWord(s: string, i: nat): (j: nat)
    requires i <= |s|
    ensures i <= j <= |s|
    ensures forall k :: i <= k < j ==> !IsSpace(s[k])
    ensures j == |s| || IsSpace(s[j])
    decreases |s| - i
  {
    if i < |s| && !IsSpace(s[i]) then SkipWord(s, i + 1) else i
  }

  /** The parts `s[i..].split()` yields. */
  function SplitFrom(s: string, i: nat): (parts: seq<string>)
    requires i <= |s|
    ensures forall n :: 0 <= n < |parts| ==> IsWord(parts[n])
    decreases |s| - i
  {
    var j := SkipSpaces(s, i);
    if j == |s| then [] else
    var k := SkipWord(s, j);
    [s[j..k]] + SplitFrom(s, k)
  }

  /** `s.split()`: the maximal whitespace-free runs of `s`, in order. */
  function Split(s: string): (parts: seq<string>)
    ensures forall n :: 0 <= n < |parts| ==> IsWord(parts[n])
  {
    SplitFrom(s, 0)
  }

  /** SkipSpaces stops exactly at the first non-whitespace position. */
  lemma {:induction false} SkipSpacesAt(s: string, i: nat, j: nat)
    requires i <= j <= |s|
    requires forall n :: i <= n < j ==> IsSpace(s[n])
    requires j == |s| || !IsSpace(s[j])
    ensures SkipSpaces(s, i) == j
    decreases j - i
  {
    if i < j {
      SkipSpacesAt(s, i + 1, j);
    }
  }

  /** SkipWord stops exactly at the first whitespace position. */
  lemma {:induction false} SkipWordAt(s: string, i: nat, j: nat)
    requires i <= j <= |s|
    requires forall n :: i <= n < j ==> !IsSpace(s[n])
    requires j == |s| || IsSpace(s[j])
    ensures SkipWord(s, i) == j
    decreases j - i
  {
    if i < j {
      SkipWordAt(s, i + 1, j);
    }
  }

  /** Whitespace on [i, j), a word on [j, k) ending at whitespace or at the end:
      that word is the next part, and splitting goes on from k. */
  lemma SplitFromStep(s: string, i: nat, j: nat, k: nat)
    requires i <= j < k <= |s|
    requires forall n :: i <= n < j ==> IsSpace(s[n])
    requires forall n :: j <= n < k ==> !IsSpace(s[n])
    requires k == |s| || IsSpace(s[k])
    ensures SplitFrom(s, i) == [s[j..k]] + SplitFrom(s, k)
  {
    SkipSpacesAt(s, i, j);
    SkipWordAt(s, j, k);
  }

  /** Splitting from `i` yields nothing exactly when only whitespace follows. */
  lemma SplitFromEmpty(s: string, i: nat)
    requires i <= |s|
    ensures SplitFrom(s, i) == [] <==> forall n :: i <= n < |s| ==> IsSpace(s[n])
  {
    if forall n :: i <= n < |s| ==> IsSpace(s[n]) {
      SkipSpacesAt(s, i, |s|);
    }
  }

  const BearerScheme: string := "Bearer"

  /** The header test of `auth_required`: the token when the header splits into
      exactly `Bearer` and one more part, MissingAuthHeader otherwise (an
      absent header is treated as empty). */
  function CheckHeader(header: Option<string>): (r: Result<string>)
    ensures r.Ok? ==> IsWord(r.value)
    ensures r.Err? ==> r.error == MissingAuthHeader
  {
    var parts := Split(if header.Some? then header.value else "");
    if |parts| == 2 && parts[0] == BearerScheme then Ok(parts[1]) else Err(MissingAuthHeader)
  }


  /** Every header of the form `<ws>Bearer<ws><token><ws>` (some whitespace
      between the two words, any around them) is accepted with that token;
      an absent header is refused. */
  lemma HeaderAccepted(ws0: string, ws1: string, token: string, ws2: string)
    requires AllSpace(ws0) && AllSpace(ws1) && ws1 != [] && AllSpace(ws2)
    requires IsWord(token)
    ensures CheckHeader(Some(ws0 + BearerScheme + ws1 + token + ws2)) == Ok(token)
    ensures CheckHeader(None) == Err(MissingAuthHeader)
  {
    var h := ws0 + BearerScheme + ws1 + token + ws2;
    var j0 := |ws0|;
    var k0 := j0 + |BearerScheme|;
    var j1 := k0 + |ws1|;
    var k1 := j1 + |token|;
    Pieces(ws0, BearerScheme, ws1, token, ws2);
    SpacesIn(h, 0, j0);
    WordIn(h, j0, k0);
    SpacesIn(h, k0, j1);
    WordIn(h, j1, k1);
    SpacesIn(h, k1, |h|);
    SplitFromStep(h, 0, j0, k0);
    SplitFromStep(h, k0, j1, k1);
    SplitFromEmpty(h, k1);
    SplitFromEmpty("", 0);
  }

  /** Where each of five concatenated pieces sits. */
  lemma Pieces(a: string, b: string, c: string, d: string, e: string)
    ensures var h := a + b + c + d + e;
      && h[..|a|] == a
      && h[|a|..|a| + |b|] == b
      && h[|a| + |b|..|a| + |b| + |c|] == c
      && h[|a| + |b| + |c|..|a| + |b| + |c| + |d|] == d
      && h[|a| + |b| + |c| + |d|..] == e
  {
  }

  lemma SpacesIn(s: string, i: nat, j: nat)
    requires i <= j <= |s| && AllSpace(s[i..j])
    ensures forall n :: i <= n < j ==> IsSpace(s[n])
  {
    forall n | i <= n < j ensures IsSpace(s[n]) { assert s[n] == s[i..j][n - i]; }
  }

  lemma WordIn(s: string, i: nat, j: nat)
    requires i <= j <= |s| && IsWord(s[i..j])
    ensures forall n :: i <= n < j ==> !IsSpace(s[n])
  {
    forall n | i <= n < j ensures !IsSpace(s[n]) { assert s[n] == s[i..j][n - i]; }
  }

  /** The converse: an accepted header has exactly that form. */
  lemma HeaderAcceptedShape(h: string, token: string) returns (ws0: string, ws1: string, ws2: string)
    requires CheckHeader(Some(h)) == Ok(token)
    ensures h == ws0 + BearerScheme + ws1 + token + ws2
    ensures AllSpace(ws0) && AllSpace(ws1) && ws1 != [] && AllSpace(ws2)
  {
    var j0 := SkipSpaces(h, 0);
    assert j0 < |h| by { SplitFromEmpty(h, 0); }
    var k0 := SkipWord(h, j0);
    assert SplitFrom(h, 0) == [h[j0..k0]] + SplitFrom(h, k0);
    var j1 := SkipSpaces(h, k0);
    assert j1 < |h| by { SplitFromEmpty(h, k0); }
    var k1 := SkipWord(h, j1);
    assert SplitFrom(h, k0) == [h[j1..k1]] + SplitFrom(h, k1);
    assert h[j0..k0] == BearerScheme && h[j1..k1] == token;
    SplitFromEmpty(h, k1);
    ws0, ws1, ws2 := h[..j0], h[k0..j1], h[k1..];
    assert ws1 != [] by { assert k0 < j1 by { assert IsSpace(h[k0]); } }
    assert h == ws0 + BearerScheme + ws1 + token + ws2 by {
      assert h == h[..j0] + h[j0..k0] + h[k0..j1] + h[j1..k1] + h[k1..];
    }
  }
}
