/**
 * Path addressing of src/components/JSONViewer.tsx: the root is "$"
 * (line 209), an array element at index i is `path + "[" + i + "]"`
 * (line 183) and an object member k is `path + "." + k` (line 193).
 * Nothing is quoted or escaped.
 *
 * Besides the string paths the viewer builds, this module gives the
 * structured location of a node (a sequence of segments) and proves that
 * the string of a location determines the location as long as no key
 * contains '.', '[' or ']'.
 */
module Paths {
  import opened SeqLemmas

  const Root: string := "$"

  // ---------------------------------------------------------------------
  // Decimal text of an index, as `index.toString()` and `${index}` give it
  // ---------------------------------------------------------------------

  predicate IsDigit(c: char) {
    '0' <= c <= '9'
  }

  predicate AllDigits(s: string) {
    forall i :: 0 <= i < |s| ==> IsDigit(s[i])
  }

  function DigitChar(d: nat): (c: char)
    requires d < 10
    ensures IsDigit(c)
  {
    ('0' as int + d) as char
  }

  function DigitValue(c: char): (d: nat)
    requires IsDigit(c)
    ensures d < 10
  {
    c as int - '0' as int
  }

  /** Decimal numeral without leading zeros. */
  function NatToString(n: nat): (s: string)
    ensures |s| >= 1 && AllDigits(s)
  {
    if n < 10 then [DigitChar(n)] else NatToString(n / 10) + [DigitChar(n % 10)]
  }

  /** A numeral of more than one digit does not start with '0'. */
  lemma {:induction false} NatToStringNoLeadingZero(n: nat)
    ensures |NatToString(n)| > 1 ==> NatToString(n)[0] != '0'
  {
    if n >= 10 {
      var prefix := NatToString(n / 10);
      NatToStringNoLeadingZero(n / 10);
      assert NatToString(n)[0] == prefix[0];
    }
  }

  /** The value of a string of decimal digits. */
  function DecimalValue(s: string): nat
    requires AllDigits(s)
  {
    if s == [] then 0 else DecimalValue(s[..|s| - 1]) * 10 + DigitValue(s[|s| - 1])
  }

  /** Reading back the numeral of n gives n. */
  lemma {:induction false} DecimalRoundTrip(n: nat)
    ensures DecimalValue(NatToString(n)) == n
  {
    var s := NatToString(n);
    if n >= 10 {
      var prefix := NatToString(n / 10);
      assert s == prefix + [DigitChar(n % 10)];
      assert s[..|s| - 1] == prefix;
      DecimalRoundTrip(n / 10);
    }
  }

  /** Distinct indices have distinct numerals. */
  lemma NatToStringInjective(a: nat, b: nat)
    ensures NatToString(a) == NatToString(b) ==> a == b
  {
    DecimalRoundTrip(a);
    DecimalRoundTrip(b);
  }

  // ---------------------------------------------------------------------
  // Child paths as the viewer builds them
  // ---------------------------------------------------------------------

  /** Path of the element at `index` of the array at `parent`. */
  function IndexPath(parent: string, index: nat): string {
    parent + "[" + NatToString(index) + "]"
  }

  /** Path of the member `key` of the object at `parent`. */
  function MemberPath(parent: string, key: string): string {
    parent + "." + key
  }

  /** An element's path strictly extends its array's path. */
  lemma IndexPathExtends(parent: string, index: nat)
    ensures |IndexPath(parent, index)| > |parent|
    ensures IndexPath(parent, index)[..|parent|] == parent
  {
  }

  /** A member's path strictly extends its object's path. */
  lemma MemberPathExtends(parent: string, key: string)
    ensures |MemberPath(parent, key)| > |parent|
    ensures MemberPath(parent, key)[..|parent|] == parent
  {
  }

  // ---------------------------------------------------------------------
  // Structured locations and their text
  // ---------------------------------------------------------------------

  /** One step from a node to a child: an array index or an object key. */
  datatype Seg = Index(i: nat) | Key(k: string)

  function SegText(s: Seg): (t: string)
    ensures |t| >= 1
    ensures t[0] == '[' <==> s.Index?
    ensures t[0] == '.' <==> s.Key?
  {
    match s
    case Index(i) => "[" + NatToString(i) + "]"
    case Key(k) => "." + k
  }

  /** The text a sequence of steps appends to the path it starts from. */
  function SegsText(l: seq<Seg>): (t: string)
    ensures t == [] <==> l == []
  {
    if l == [] then [] else SegText(l[0]) + SegsText(l[1..])
  }

  /** The string path of a location below the root. */
  function PathOf(l: seq<Seg>): string {
    Root + SegsText(l)
  }

  /** Taking one step appends that step's text, as lines 183 and 193 do. */
  lemma ChildPathText(parent: string, s: Seg)
    ensures s.Index? ==> IndexPath(parent, s.i) == parent + SegText(s)
    ensures s.Key? ==> MemberPath(parent, s.k) == parent + SegText(s)
  {
  }

  lemma SegsTextAppend(s: Seg, l: seq<Seg>)
    ensures SegsText([s] + l) == SegText(s) + SegsText(l)
  {
    assert ([s] + l)[1..] == l;
  }

  predicate IsSeparator(c: char) {
    c == '.' || c == '[' || c == ']'
  }

  /** A key that contains none of the characters paths are built with. */
  predicate PlainKey(k: string) {
    forall i :: 0 <= i < |k| ==> !IsSeparator(k[i])
  }

  predicate PlainSegs(l: seq<Seg>) {
    forall j :: 0 <= j < |l| ==> l[j].Key? ==> PlainKey(l[j].k)
  }

  predicate StartsAtSeparator(s: string) {
    s == [] || IsSeparator(s[0])
  }

  /** Index of the first separator character of s, or |s| if there is none. */
  function FirstSeparator(s: string): (n: nat)
    ensures n <= |s|
  {
    if s == [] then 0 else if IsSeparator(s[0]) then 0 else 1 + FirstSeparator(s[1..])
  }

  lemma {:induction false} FirstSeparatorAfterPlain(a: string, x: string)
    requires PlainKey(a) && StartsAtSeparator(x)
    ensures FirstSeparator(a + x) == |a|
  {
    if a == [] {
      assert a + x == x;
    } else {
      assert (a + x)[1..] == a[1..] + x;
      FirstSeparatorAfterPlain(a[1..], x);
    }
  }

  /**
   * A separator-free word followed by text that starts at a separator (or is
   * empty) can be split in only one way.
   */
  lemma SplitAtSeparator(a: string, x: string, b: string, y: string)
    requires PlainKey(a) && PlainKey(b) && StartsAtSeparator(x) && StartsAtSeparator(y)
    requires a + x == b + y
    ensures a == b && x == y
  {
    FirstSeparatorAfterPlain(a, x);
    FirstSeparatorAfterPlain(b, y);
    SplitConcat(a, x);
    SplitConcat(b, y);
  }

  lemma SegsTextStartsAtSeparator(l: seq<Seg>)
    ensures StartsAtSeparator(SegsText(l))
  {
    if l != [] {
      assert SegsText(l)[0] == SegText(l[0])[0];
    }
  }

  lemma DigitsArePlain(s: string)
    requires AllDigits(s)
    ensures PlainKey(s)
  {
  }

  lemma IndexHeadSplit(i1: nat, t1: string, i2: nat, t2: string)
    requires StartsAtSeparator(t1) && StartsAtSeparator(t2)
    requires SegText(Index(i1)) + t1 == SegText(Index(i2)) + t2
    ensures i1 == i2 && t1 == t2
  {
    var n1, n2 := NatToString(i1), NatToString(i2);
    var r1, r2 := "]" + t1, "]" + t2;
    BracketText(n1, t1);
    BracketText(n2, t2);
    ConsInjective('[', n1 + r1, '[', n2 + r2);
    DigitsArePlain(n1);
    DigitsArePlain(n2);
    SplitAtSeparator(n1, r1, n2, r2);
    NatToStringInjective(i1, i2);
    ConsInjective(']', t1, ']', t2);
  }

  lemma BracketText(n: string, t: string)
    ensures ("[" + n + "]") + t == ['['] + (n + ("]" + t))
  {
    ConcatAssoc("[" + n, "]", t);
    ConcatAssoc("[", n, "]" + t);
  }

  lemma DotText(k: string, t: string)
    ensures ("." + k) + t == ['.'] + (k + t)
  {
    ConcatAssoc(".", k, t);
  }

  lemma KeyHeadSplit(k1: string, t1: string, k2: string, t2: string)
    requires PlainKey(k1) && PlainKey(k2)
    requires StartsAtSeparator(t1) && StartsAtSeparator(t2)
    requires SegText(Key(k1)) + t1 == SegText(Key(k2)) + t2
    ensures k1 == k2 && t1 == t2
  {
    DotText(k1, t1);
    DotText(k2, t2);
    ConsInjective('.', k1 + t1, '.', k2 + t2);
    SplitAtSeparator(k1, t1, k2, t2);
  }

  /**
   * The text of a plain first step followed by the text of further steps
   * determines that first step and the rest of the text.
   */
  lemma HeadSplit(s1: Seg, t1: string, s2: Seg, t2: string)
    requires s1.Key? ==> PlainKey(s1.k)
    requires s2.Key? ==> PlainKey(s2.k)
    requires StartsAtSeparator(t1) && StartsAtSeparator(t2)
    requires SegText(s1) + t1 == SegText(s2) + t2
    ensures s1 == s2 && t1 == t2
  {
    assert (SegText(s1) + t1)[0] == SegText(s1)[0];
    assert (SegText(s2) + t2)[0] == SegText(s2)[0];
    if s1.Index? {
      assert s2.Index?;
      IndexHeadSplit(s1.i, t1, s2.i, t2);
    } else {
      assert s2.Key?;
      KeyHeadSplit(s1.k, t1, s2.k, t2);
    }
  }

  /**
   * Locations whose keys are separator-free are told apart by their text:
   * the address grammar `("." key | "[" index "]")*` is unambiguous for them.
   */
  lemma {:induction false} SegsTextInjective(l1: seq<Seg>, l2: seq<Seg>)
    requires PlainSegs(l1) && PlainSegs(l2)
    ensures SegsText(l1) == SegsText(l2) ==> l1 == l2
  {
    if SegsText(l1) == SegsText(l2) && l1 != [] && l2 != [] {
      SegsTextStartsAtSeparator(l1[1..]);
      SegsTextStartsAtSeparator(l2[1..]);
      HeadSplit(l1[0], SegsText(l1[1..]), l2[0], SegsText(l2[1..]));
      SegsTextInjective(l1[1..], l2[1..]);
      assert l1 == [l1[0]] + l1[1..];
      assert l2 == [l2[0]] + l2[1..];
    }
  }

  /** Distinct plain locations have distinct string paths from the root. */
  lemma PathOfInjective(l1: seq<Seg>, l2: seq<Seg>)
    requires PlainSegs(l1) && PlainSegs(l2)
    ensures PathOf(l1) == PathOf(l2) ==> l1 == l2
  {
    if PathOf(l1) == PathOf(l2) {
      assert SegsText(l1) == PathOf(l1)[|Root|..];
      assert SegsText(l2) == PathOf(l2)[|Root|..];
      SegsTextInjective(l1, l2);
    }
  }

  /** The root path is the path of the empty location and of no other. */
  lemma RootPathOnlyAtRoot(l: seq<Seg>)
    ensures PathOf(l) == Root <==> l == []
  {
    assert |PathOf(l)| == |Root| + |SegsText(l)|;
  }

  /**
   * Without the plain-key condition paths collide: the member "a.b" of the
   * root and the member "b" of the root's member "a" share the path "$.a.b".
   */
  lemma KeysWithSeparatorsCollide()
    ensures PathOf([Key("a.b")]) == PathOf([Key("a"), Key("b")])
    ensures [Key("a.b")] != [Key("a"), Key("b")]
  {
    assert SegsText([Key("b")]) == ".b";
    assert [Key("a"), Key("b")][1..] == [Key("b")];
  }
}
