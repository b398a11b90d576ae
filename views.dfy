/** Character spans (View in cdeck/cdc.hpp) and the byte hash that keys the
    compiler's maps.  A view's two pointers become indices into the buffer
    they point into; the buffer travels with the view, so two views are the
    same pointer pair exactly when they are equal values. */
module Views {

  datatype View = View(buf: string, begin: int, end: int)

  /** Both ends lie inside the buffer, in order. */
  predicate Valid(v: View)
  {
    0 <= v.begin <= v.end <= |v.buf|
  }

  /** The characters a valid view spans. */
  function Text(v: View): string
    requires Valid(v)
  {
    v.buf[v.begin..v.end]
  }

  /** A view over a whole string literal (the `_sv` suffix). */
  function Lit(s: string): (v: View)
    ensures Valid(v) && Text(v) == s
  {
    View(s, 0, |s|)
  }

  /** The character at `k`, reading the terminating NUL of the buffer at its end. */
  function CharAt(s: string, k: nat): char
  {
    if k < |s| then s[k] else '\0'
  }

  function Flag(b: bool): int
  {
    if b then 1 else 0
  }

  /** length: the distance between the two ends, whichever way round they are. */
  function Length(v: View): (n: nat)
    ensures v.begin <= v.end ==> n == v.end - v.begin
    ensures v.end <= v.begin ==> n == v.begin - v.end
  {
    (v.end - v.begin) * Flag(v.end > v.begin) + (v.begin - v.end) * Flag(v.begin > v.end)
  }

  predicate Empty(v: View)
  {
    v.begin == v.end
  }

  /** cmp: true exactly when both views spell the same characters; the
      first test, an identical pointer pair, only short-cuts that answer. */
  method Cmp(lhs: View, rhs: View) returns (eq: bool)
    requires Valid(lhs) && Valid(rhs)
    ensures eq <==> Text(lhs) == Text(rhs)
  {
    if lhs == rhs {
      return true;
    }
    if Length(lhs) != Length(rhs) {
      return false;
    }
    var i := 0;
    while i < Length(lhs)
      invariant 0 <= i <= Length(lhs) == Length(rhs)
      invariant Text(lhs)[..i] == Text(rhs)[..i]
    {
      if lhs.buf[lhs.begin + i] != rhs.buf[rhs.begin + i] {
        assert Text(lhs)[i] != Text(rhs)[i];
        return false;
      }
      i := i + 1;
    }
    assert Text(lhs) == Text(lhs)[..i];
    assert Text(rhs) == Text(rhs)[..i];
    return true;
  }

  /** The `k`th character read from the start of `sv` is that of `begins`. */
  predicate SameAt(sv: View, begins: View, k: nat)
    requires Valid(sv) && Valid(begins) && k < Length(begins)
  {
    CharAt(sv.buf, sv.begin + k) == begins.buf[begins.begin + k]
  }

  /** begins_with: the characters of `sv` from its start match those of
      `begins`.  The source reads as far as `begins` is long whatever the
      length of `sv`; here it may read up to the buffer's terminating NUL. */
  method BeginsWith(sv: View, begins: View) returns (r: bool)
    requires Valid(sv) && Valid(begins) && sv.begin + Length(begins) <= |sv.buf| + 1
    ensures r <==> forall k :: 0 <= k < Length(begins) ==> SameAt(sv, begins, k)
    ensures sv.begin + Length(begins) <= sv.end ==> (r <==> Text(begins) <= Text(sv))
  {
    var i := 0;
    while i < Length(begins)
      invariant 0 <= i <= Length(begins)
      invariant forall k :: 0 <= k < i ==> SameAt(sv, begins, k)
    {
      if CharAt(sv.buf, sv.begin + i) != begins.buf[begins.begin + i] {
        assert !SameAt(sv, begins, i);
        if sv.begin + Length(begins) <= sv.end {
          assert Text(begins)[i] != Text(sv)[i];
        }
        return false;
      }
      i := i + 1;
    }
    if sv.begin + Length(begins) <= sv.end {
      forall k | 0 <= k < Length(begins) ensures Text(begins)[k] == Text(sv)[k] {
        assert SameAt(sv, begins, k);
      }
    }
    return true;
  }

  /** next: drop the first character; an empty view stays as it is. */
  function Next(v: View): (r: View)
    ensures Valid(v) ==> Valid(r) && r.buf == v.buf && r.end == v.end
    ensures Valid(v) && !Empty(v) ==> Text(r) == Text(v)[1..]
    ensures Empty(v) ==> r == v
  {
    if Empty(v) then v else View(v.buf, v.begin + 1, v.end)
  }

  /** peek: the first character alone; an empty view stays as it is. */
  function Peek(v: View): (r: View)
    ensures Valid(v) ==> Valid(r) && r.buf == v.buf && r.begin == v.begin
    ensures Valid(v) && !Empty(v) ==> Text(r) == [v.buf[v.begin]]
    ensures Empty(v) ==> r == v
  {
    if Empty(v) then v else View(v.buf, v.begin, v.begin + 1)
  }

  /** stretch: from the start of `lhs` to the end of `rhs`. */
  function Stretch(lhs: View, rhs: View): (r: View)
    ensures r.buf == lhs.buf && r.begin == lhs.begin && r.end == rhs.end
  {
    View(lhs.buf, lhs.begin, rhs.end)
  }

  /** take(View&): hand out the first character and move past it. */
  method TakeChar(sv: View) returns (out: View, sv': View)
    requires Valid(sv)
    ensures out == Peek(sv) && sv' == Next(sv)
    ensures Valid(out) && Valid(sv') && Text(out) + Text(sv') == Text(sv)
  {
    if Empty(sv) {
      return sv, sv;
    }
    var ptr := sv.begin;
    sv' := Next(sv);
    out := View(sv.buf, ptr, sv'.begin);
    assert Text(sv) == Text(sv)[..1] + Text(sv)[1..];
  }

  /** End of the longest run of characters from `i` (and before `e`) that
      all satisfy `p`. */
  function Span(s: string, i: nat, e: nat, p: char -> bool): (r: nat)
    requires i <= e <= |s|
    ensures i <= r <= e
    ensures forall k :: i <= k < r ==> p(s[k])
    ensures r == e || !p(s[r])
    decreases e - i
  {
    if i == e || !p(s[i]) then i else Span(s, i + 1, e, p)
  }

  /** take_while: the longest prefix of `sv` whose characters all satisfy
      `p`; `sv` is left holding exactly the rest. */
  method TakeWhile(sv: View, p: char -> bool) returns (out: View, sv': View)
    requires Valid(sv)
    ensures Valid(out) && Valid(sv') && out.buf == sv.buf && sv'.buf == sv.buf
    ensures out.begin == sv.begin && out.end == sv'.begin && sv'.end == sv.end
    ensures sv'.begin == Span(sv.buf, sv.begin, sv.end, p)
    ensures Text(out) + Text(sv') == Text(sv)
  {
    out := View(sv.buf, sv.begin, sv.begin);
    sv' := sv;
    while !Empty(sv') && p(CharAt(sv'.buf, sv'.begin))
      invariant Valid(sv') && sv'.buf == sv.buf && sv'.end == sv.end && sv.begin <= sv'.begin
      invariant out == View(sv.buf, sv.begin, sv'.begin)
      invariant Span(sv.buf, sv'.begin, sv.end, p) == Span(sv.buf, sv.begin, sv.end, p)
      decreases sv'.end - sv'.begin
    {
      var c;
      c, sv' := TakeChar(sv');
      out := Stretch(out, c);
    }
    assert Text(sv) == Text(out) + Text(sv');
  }

  /** The constants of 64-bit FNV-1a. */
  const OffsetBasis: bv64 := 14695981039346656037
  const Prime: bv64 := 1099511628211

  /** A `char` read as `size_t`: a byte of 0x80 or more is negative as a
      (signed) char, so the cast fills the upper bytes with ones. */
  function Widen(b: bv8): (w: bv64)
    ensures b < 0x80 ==> w == b as bv64
    ensures b >= 0x80 ==> w & 0xFF == b as bv64 && w >> 8 == 0xFF_FFFF_FFFF_FFFF
  {
    if b < 0x80 then b as bv64 else (b as bv64) | 0xFFFF_FFFF_FFFF_FF00
  }

  /** One step of the fold: xor the byte in, then multiply, wrapping at 2^64. */
  function Mix(h: bv64, w: bv64): bv64
  {
    (h ^ w) * Prime
  }

  /** The hash of a byte run, folded from the left as hash_bytes does. */
  function Fnv(bs: seq<bv8>): bv64
  {
    if bs == [] then OffsetBasis else Mix(Fnv(bs[..|bs| - 1]), Widen(bs[|bs| - 1]))
  }

  /** Textbook FNV-1a, which takes each byte as an unsigned value. */
  function StandardFnv(bs: seq<bv8>): bv64
  {
    if bs == [] then OffsetBasis else Mix(StandardFnv(bs[..|bs| - 1]), bs[|bs| - 1] as bv64)
  }

  /** hash_bytes */
  method HashBytes(bs: seq<bv8>) returns (hash: bv64)
    ensures hash == Fnv(bs)
  {
    hash := OffsetBasis;
    var i := 0;
    while i < |bs|
      invariant 0 <= i <= |bs|
      invariant hash == Fnv(bs[..i])
    {
      assert bs[..i + 1][..i] == bs[..i];
      hash := Mix(hash, Widen(bs[i]));
      i := i + 1;
    }
    assert bs[..i] == bs;
  }

  /** On bytes below 0x80 (ASCII source text) the hash is textbook FNV-1a. */
  lemma {:induction false} FnvAscii(bs: seq<bv8>)
    requires forall k :: 0 <= k < |bs| ==> bs[k] < 0x80
    ensures Fnv(bs) == StandardFnv(bs)
    decreases |bs|
  {
    if bs != [] {
      FnvAscii(bs[..|bs| - 1]);
    }
  }

  /** The empty run hashes to the offset basis, and "a" to the published
      FNV-1a test value. */
  lemma FnvVectors()
    ensures Fnv([]) == 0xcbf2_9ce4_8422_2325
    ensures Fnv([0x61]) == 0xaf63_dc4c_8601_ec8c
  {
    assert [0x61 as bv8][..0] == [];
  }

  /** Past 0x7F the sign extension makes the hash differ from textbook FNV-1a. */
  lemma FnvHighByte()
    ensures Fnv([0x80]) != StandardFnv([0x80])
  {
    assert [0x80 as bv8][..0] == [];
  }
}
