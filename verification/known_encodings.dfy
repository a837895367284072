/** The compact representation of the built-in encodings: encoding a
    character in a known encoding, decoding a glyph back through the reverse
    index, finding the glyph of a name in the table of names, and telling
    whether a string lies in that table.

    The generated tables are parameters (`Tables`); what the code relies on
    them for is stated as `WellFormed`, and what the searches need of their
    order as `ReverseSorted` and `NamesSorted`. */
module KnownEncodings {

  newtype byte = x: int | 0 <= x < 256

  /** The generated tables.
      encodings[ei]: the glyph codes of encoding ei, one per character; its
        length is that encoding's entry in the length table.
      reverse[ei]: character codes of encoding ei, meant to be ordered by
        glyph; its length is that encoding's reverse length.
      chars: the names, grouped by length; the names of length len are
        fixed-width records from offsets[len] to offsets[len + 1].
      maxLength: the longest name.
      minCidGlyph: the first CID glyph; glyphs of the known encodings are
        biased to just below it. */
  datatype Tables = Tables(
    encodings: seq<seq<nat>>,
    reverse: seq<seq<nat>>,
    chars: seq<byte>,
    offsets: seq<nat>,
    maxLength: nat,
    minCidGlyph: int)

  /** What the code takes for granted about the tables: a reverse index per
      encoding whose entries are characters of that encoding, and name
      offsets, one past the longest length, that grow and stay in the
      character table. */
  ghost predicate WellFormed(t: Tables) {
    && |t.reverse| == |t.encodings|
    && (forall ei, i :: 0 <= ei < |t.reverse| && 0 <= i < |t.reverse[ei]| ==>
          t.reverse[ei][i] < |t.encodings[ei]|)
    && |t.offsets| >= t.maxLength + 2
    && (forall i, j :: 0 <= i <= j < |t.offsets| ==> t.offsets[i] <= t.offsets[j])
    && (forall i :: 0 <= i < |t.offsets| ==> t.offsets[i] <= |t.chars|)
  }

  /** gs_c_min_std_encoding_glyph: the bias added to a table entry. */
  function MinStdEncodingGlyph(t: Tables): int {
    t.minCidGlyph - 0x10000
  }

  datatype Glyph = NoGlyph | Glyph(value: int)

  datatype Char = NoChar | Char(code: nat)

  // ------------------------------------------------------------ encoding

  /** gs_c_known_encode: no glyph for an encoding index out of range or a
      character past the encoding's end, otherwise the biased table entry. */
  function KnownEncode(t: Tables, ch: nat, ei: int): (g: Glyph)
    ensures g.Glyph? <==> 0 <= ei < |t.encodings| && ch < |t.encodings[ei]|
  {
    if ei < 0 || ei >= |t.encodings| || ch >= |t.encodings[ei]| then NoGlyph
    else Glyph(MinStdEncodingGlyph(t) + t.encodings[ei][ch])
  }

  // ------------------------------------------------------------ decoding

  /** The glyph of the i-th entry of the reverse index of encoding ei. */
  function GlyphAt(t: Tables, ei: int, i: int): int
    requires WellFormed(t) && 0 <= ei < |t.encodings| && 0 <= i < |t.reverse[ei]|
  {
    MinStdEncodingGlyph(t) + t.encodings[ei][t.reverse[ei][i]]
  }

  /** The reverse index of encoding ei is ordered by glyph. */
  ghost predicate ReverseSorted(t: Tables, ei: int)
    requires WellFormed(t) && 0 <= ei < |t.encodings|
  {
    forall i, j :: 0 <= i < j < |t.reverse[ei]| ==> GlyphAt(t, ei, i) <= GlyphAt(t, ei, j)
  }

  /** Character c of encoding ei is listed in the reverse index with glyph
      `glyph`. */
  ghost predicate Decodes(t: Tables, ei: int, glyph: int, c: nat)
    requires WellFormed(t) && 0 <= ei < |t.encodings|
  {
    exists i :: 0 <= i < |t.reverse[ei]| && t.reverse[ei][i] == c && GlyphAt(t, ei, i) == glyph
  }

  /** Some entry of the reverse index of encoding ei has glyph `glyph`. */
  ghost predicate Listed(t: Tables, ei: int, glyph: int)
    requires WellFormed(t) && 0 <= ei < |t.encodings|
  {
    exists i :: 0 <= i < |t.reverse[ei]| && GlyphAt(t, ei, i) == glyph
  }

  /** gs_c_decode: binary search of the reverse index of encoding ei for
      `glyph`. A character it returns is listed with that glyph; on a sorted
      index it finds one whenever there is one. */
  method Decode(t: Tables, glyph: int, ei: int) returns (r: Char)
    requires WellFormed(t) && 0 <= ei < |t.encodings|
    ensures r.Char? ==> Decodes(t, ei, glyph, r.code) && r.code < |t.encodings[ei]|
    ensures r.NoChar? && ReverseSorted(t, ei) ==> !Listed(t, ei, glyph)
  {
    var reverse := t.reverse[ei];
    var first, last := 0, |reverse|;
    while first < last
      invariant 0 <= first <= last <= |reverse|
      invariant ReverseSorted(t, ei) ==> forall i :: 0 <= i < first ==> GlyphAt(t, ei, i) != glyph
      invariant ReverseSorted(t, ei) ==> forall i :: last <= i < |reverse| ==> GlyphAt(t, ei, i) > glyph
      decreases last - first
    {
      var test := (first + last) / 2;
      var testGlyph := MinStdEncodingGlyph(t) + t.encodings[ei][reverse[test]];
      assert testGlyph == GlyphAt(t, ei, test);
      if glyph < testGlyph {
        last := test;
      } else if glyph > testGlyph {
        first := test + 1;
      } else {
        return Char(reverse[test]);
      }
    }
    return NoChar;
  }

  /** What a decoded character encodes back to: the glyph it was decoded
      from. */
  lemma {:induction false} DecodeEncode(t: Tables, ei: int, glyph: int, c: nat)
    requires WellFormed(t) && 0 <= ei < |t.encodings|
    requires Decodes(t, ei, glyph, c)
    ensures KnownEncode(t, c, ei) == Glyph(glyph)
  {
    var i :| 0 <= i < |t.reverse[ei]| && t.reverse[ei][i] == c && GlyphAt(t, ei, i) == glyph;
    assert c < |t.encodings[ei]|;
  }

  /** A character whose glyph is listed in the reverse index is found again
      by decoding that glyph, up to characters with the same glyph: whatever
      comes back encodes to the same glyph. */
  lemma EncodeListed(t: Tables, ei: int, i: int)
    requires WellFormed(t) && 0 <= ei < |t.encodings| && 0 <= i < |t.reverse[ei]|
    ensures var c := t.reverse[ei][i];
      KnownEncode(t, c, ei).Glyph? && Listed(t, ei, KnownEncode(t, c, ei).value)
  {
    assert GlyphAt(t, ei, i) == KnownEncode(t, t.reverse[ei][i], ei).value;
  }

  // ------------------------------------------------------------ names

  /** memcmp over two byte strings of the same length: the sign of the
      first difference, 0 when there is none. */
  function MemCmp(a: seq<byte>, b: seq<byte>): (c: int)
    requires |a| == |b|
    ensures -1 <= c <= 1
    ensures c == 0 <==> a == b
    ensures c < 0 <==> LexLess(a, b)
    ensures c > 0 <==> LexLess(b, a)
  {
    if |a| == 0 then 0
    else if a[0] < b[0] then
      assert LexLess(a, b) by { LessAt(a, b, 0); }
      NotLessFirst(b, a);
      -1
    else if a[0] > b[0] then
      assert LexLess(b, a) by { LessAt(b, a, 0); }
      NotLessFirst(a, b);
      1
    else
      var c := MemCmp(a[1..], b[1..]);
      LexLessTail(a, b);
      LexLessTail(b, a);
      assert c == 0 ==> a == b by {
        if c == 0 {
          assert a == [a[0]] + a[1..] && b == [b[0]] + b[1..];
        }
      }
      c
  }

  /** Byte strings of the same length in lexicographic order: equal up to
      some position, where the first is smaller. */
  ghost predicate LexLess(a: seq<byte>, b: seq<byte>)
    requires |a| == |b|
  {
    exists k :: 0 <= k < |a| && a[..k] == b[..k] && a[k] < b[k]
  }

  lemma LessAt(a: seq<byte>, b: seq<byte>, k: int)
    requires |a| == |b| && 0 <= k < |a| && a[..k] == b[..k] && a[k] < b[k]
    ensures LexLess(a, b)
  {
  }

  /** A string whose first byte is smaller is not the greater one. */
  lemma NotLessFirst(a: seq<byte>, b: seq<byte>)
    requires |a| == |b| && |a| > 0 && a[0] > b[0]
    ensures !LexLess(a, b)
  {
    if LexLess(a, b) {
      var k :| 0 <= k < |a| && a[..k] == b[..k] && a[k] < b[k];
    }
  }

  /** With the same first byte, the order is that of the rest. */
  lemma {:induction false} LexLessTail(a: seq<byte>, b: seq<byte>)
    requires |a| == |b| && |a| > 0 && a[0] == b[0]
    ensures LexLess(a, b) <==> LexLess(a[1..], b[1..])
  {
    if LexLess(a, b) {
      var k :| 0 <= k < |a| && a[..k] == b[..k] && a[k] < b[k];
      assert k > 0;
      assert a[1..][..k - 1] == a[..k][1..] && b[1..][..k - 1] == b[..k][1..];
      LessAt(a[1..], b[1..], k - 1);
    }
    if LexLess(a[1..], b[1..]) {
      var k :| 0 <= k < |a| - 1 && a[1..][..k] == b[1..][..k] && a[1..][k] < b[1..][k];
      assert a[..k + 1] == [a[0]] + a[1..][..k] && b[..k + 1] == [b[0]] + b[1..][..k];
      LessAt(a, b, k + 1);
    }
  }

  /** The lexicographic order is a strict order: irreflexive and
      transitive. */
  lemma {:induction false} LexLessTrans(a: seq<byte>, b: seq<byte>, c: seq<byte>)
    requires |a| == |b| == |c|
    ensures !LexLess(a, a)
    ensures LexLess(a, b) && LexLess(b, c) ==> LexLess(a, c)
  {
    if LexLess(a, b) && LexLess(b, c) {
      var k1 :| 0 <= k1 < |a| && a[..k1] == b[..k1] && a[k1] < b[k1];
      var k2 :| 0 <= k2 < |b| && b[..k2] == c[..k2] && b[k2] < c[k2];
      if k1 < k2 {
        assert b[..k2][..k1] == b[..k1] && c[..k2][..k1] == c[..k1];
        assert b[..k2][k1] == b[k1] && c[..k2][k1] == c[k1];
        LessAt(a, c, k1);
      } else if k2 < k1 {
        assert a[..k1][..k2] == a[..k2] && b[..k1][..k2] == b[..k2];
        assert a[..k1][k2] == a[k2] && b[..k1][k2] == b[k2];
        LessAt(a, c, k2);
      } else {
        LessAt(a, c, k1);
      }
    }
  }

  /** How many names of length len the table holds. */
  function NameCount(t: Tables, len: nat): nat
    requires WellFormed(t) && 1 <= len <= t.maxLength
  {
    (t.offsets[len + 1] - t.offsets[len]) / len
  }

  /** The m-th name of length len. */
  function Record(t: Tables, len: nat, m: nat): (s: seq<byte>)
    requires WellFormed(t) && 1 <= len <= t.maxLength && m < NameCount(t, len)
    ensures |s| == len
  {
    RecordFits(t.offsets[len + 1] - t.offsets[len], len, m);
    var start := t.offsets[len] + m * len;
    t.chars[start..start + len]
  }

  /** A record index below the count of a span of d bytes ends inside it. */
  lemma RecordFits(d: int, len: int, m: int)
    requires 0 <= d && 1 <= len && 0 <= m < d / len
    ensures 0 <= m * len && m * len + len <= d
  {
    var n := d / len;
    assert n * len <= d;
    assert (n - (m + 1)) * len >= 0;
    assert n * len - (m + 1) * len == (n - (m + 1)) * len;
  }

  /** The names of length len are in strictly increasing order. */
  ghost predicate NamesSorted(t: Tables, len: nat)
    requires WellFormed(t) && 1 <= len <= t.maxLength
  {
    forall i, j :: 0 <= i < j < NameCount(t, len) ==> LexLess(Record(t, len, i), Record(t, len, j))
  }

  /** The glyph of a name: the index-th record of length len, which starts
      index * len bytes after the first name of that length. (The packing of
      len and that offset into a glyph number is generated with the
      tables.) */
  datatype NameRef = NoName | Name(len: nat, index: nat)

  /** gs_c_name_glyph: no glyph for an empty name or one longer than any in
      the table; otherwise a binary search of the names of that length. A name
      it returns is the record equal to `str`; on sorted names it finds it
      whenever it is there. */
  method NameGlyph(t: Tables, str: seq<byte>) returns (r: NameRef)
    requires WellFormed(t)
    ensures |str| == 0 || |str| > t.maxLength ==> r == NoName
    ensures r.Name? ==> r.len == |str| && 1 <= |str| <= t.maxLength &&
                        r.index < NameCount(t, |str|) && Record(t, |str|, r.index) == str
    ensures r.NoName? && 1 <= |str| <= t.maxLength && NamesSorted(t, |str|) ==>
              forall m :: 0 <= m < NameCount(t, |str|) ==> Record(t, |str|, m) != str
  {
    var len := |str|;
    if len == 0 || len > t.maxLength {
      return NoName;
    }
    var count := NameCount(t, len);
    var a, b := 0, count;
    while a < b
      invariant 0 <= a <= b <= count
      invariant Bracketed(t, len, str, a, b)
      decreases b - a
    {
      var m := (a + b) / 2;
      var probe := Record(t, len, m);
      var cmp := MemCmp(str, probe);
      if cmp == 0 {
        return Name(len, m);
      } else if cmp > 0 {
        SearchBelow(t, len, str, a, m, b);
        a := m + 1;
      } else {
        SearchAbove(t, len, str, a, m, b);
        b := m;
      }
    }
    NotListed(t, len, str, a);
    return NoName;
  }

  /** The search state of gs_c_name_glyph: on sorted names, the records
      before a are below `str` and those from b on are above it. */
  ghost predicate Bracketed(t: Tables, len: nat, str: seq<byte>, a: nat, b: nat)
    requires WellFormed(t) && 1 <= len <= t.maxLength && |str| == len && a <= b <= NameCount(t, len)
  {
    NamesSorted(t, len) ==>
      && (forall i :: 0 <= i < a ==> LexLess(Record(t, len, i), str))
      && (forall i :: b <= i < NameCount(t, len) ==> LexLess(str, Record(t, len, i)))
  }

  /** When the search range is empty, no record of a sorted table is
      `str`. */
  lemma NotListed(t: Tables, len: nat, str: seq<byte>, a: nat)
    requires WellFormed(t) && 1 <= len <= t.maxLength && |str| == len && a <= NameCount(t, len)
    requires Bracketed(t, len, str, a, a)
    ensures NamesSorted(t, len) ==> forall m :: 0 <= m < NameCount(t, len) ==> Record(t, len, m) != str
  {
    LexLessTrans(str, str, str);
  }

  /** A record below `str` moves the low end of the search past it. */
  lemma SearchBelow(t: Tables, len: nat, str: seq<byte>, a: nat, m: nat, b: nat)
    requires WellFormed(t) && 1 <= len <= t.maxLength && |str| == len && a <= m < b <= NameCount(t, len)
    requires Bracketed(t, len, str, a, b)
    requires LexLess(Record(t, len, m), str)
    ensures Bracketed(t, len, str, m + 1, b)
  {
    if NamesSorted(t, len) {
      forall i | a <= i < m
        ensures LexLess(Record(t, len, i), str)
      {
        LexLessTrans(Record(t, len, i), Record(t, len, m), str);
      }
    }
  }

  /** A record above `str` moves the high end of the search down to it. */
  lemma SearchAbove(t: Tables, len: nat, str: seq<byte>, a: nat, m: nat, b: nat)
    requires WellFormed(t) && 1 <= len <= t.maxLength && |str| == len && a <= m < b <= NameCount(t, len)
    requires Bracketed(t, len, str, a, b)
    requires LexLess(str, Record(t, len, m))
    ensures Bracketed(t, len, str, a, m)
  {
    if NamesSorted(t, len) {
      forall i | m < i < b
        ensures LexLess(str, Record(t, len, i))
      {
        LexLessTrans(str, Record(t, len, m), Record(t, len, i));
      }
    }
  }

  // ------------------------------------------------------------ table membership

  /** gs_is_c_glyph_name, with addresses as integers: `str` points into the
      character table that starts at address `chars` and holds `total`
      characters. The contract only restates the range test as "the address of
      some character"; what the test is for, that every name the search
      returns passes it, is NameIsCGlyphName. */
  function IsCGlyphName(str: int, chars: int, total: nat): (b: bool)
    ensures b <==> exists i :: 0 <= i < total && Addr(chars, i) == str
  {
    assert chars <= str < chars + total ==> Addr(chars, str - chars) == str;
    chars <= str && str < chars + total
  }

  /** The address of the i-th character of a table at `base`. */
  function Addr(base: int, i: int): int {
    base + i
  }

  /** Every name the search can return lies in the character table, so it is
      recognised as one of the table's names. */
  lemma NameIsCGlyphName(t: Tables, chars: int, len: nat, index: nat)
    requires WellFormed(t) && 1 <= len <= t.maxLength && index < NameCount(t, len)
    ensures IsCGlyphName(chars + t.offsets[len] + index * len, chars, |t.chars|)
  {
    RecordFits(t.offsets[len + 1] - t.offsets[len], len, index);
    assert Addr(chars, t.offsets[len] + index * len) == chars + t.offsets[len] + index * len;
  }
}
