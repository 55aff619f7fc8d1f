/** A card of the listing grid (src/app/homepage/page.tsx): the collapsed or
    expanded description, its "Read More" toggle, and the first four
    hashtags as badges whose colour is derived from a 32-bit string hash. */
module StartupCard {
  import opened Wrappers
  import Seqs
  import Listing

  // ----- badge colours -----

  const Palette: seq<string> := [
    "bg-indigo-100 text-indigo-800",
    "bg-sky-100 text-sky-800",
    "bg-emerald-100 text-emerald-800",
    "bg-amber-100 text-amber-800",
    "bg-rose-100 text-rose-800",
    "bg-violet-100 text-violet-800"
  ]

  const TwoTo32: int := 0x1_0000_0000
  const TwoTo31: int := 0x8000_0000

  /** `x | 0`: the signed 32-bit integer congruent to `x` modulo 2^32. */
  function ToInt32(x: int): (r: int)
    ensures -TwoTo31 <= r < TwoTo31
    ensures (x - r) % TwoTo32 == 0
  {
    (x + TwoTo31) % TwoTo32 - TwoTo31
  }

  /** `ToInt32` only depends on its argument modulo 2^32. */
  lemma ToInt32Shift(x: int, k: int)
    ensures ToInt32(x + k * TwoTo32) == ToInt32(x)
  {
    var a := x + TwoTo31;
    var q, r := a / TwoTo32, a % TwoTo32;
    assert a + k * TwoTo32 == (q + k) * TwoTo32 + r;
    assert (a + k * TwoTo32) % TwoTo32 == r;
  }

  /** The loop step `(hash * 31 + code) | 0` commutes with `| 0`. */
  lemma StepCongruent(x: int, c: int)
    ensures ToInt32(ToInt32(x) * 31 + c) == ToInt32(x * 31 + c)
  {
    var r := ToInt32(x);
    var k := (x - r) / TwoTo32;
    assert x - r == k * TwoTo32;
    assert x * 31 + c == (r * 31 + c) + (31 * k) * TwoTo32;
    ToInt32Shift(r * 31 + c, 31 * k);
  }

  /** The value of `hash` after the loop has read all of `s`. */
  function HashOf(s: string): (h: int)
    ensures -TwoTo31 <= h < TwoTo31
  {
    if |s| == 0 then 0 else ToInt32(HashOf(s[..|s| - 1]) * 31 + s[|s| - 1] as int)
  }

  /** The polynomial hash `sum s[i] * 31^(n-1-i)` on unbounded integers. */
  function PolyHash(s: string): int {
    if |s| == 0 then 0 else PolyHash(s[..|s| - 1]) * 31 + s[|s| - 1] as int
  }

  /** Truncating at every step equals truncating once at the end: the badge
      hash is the 32-bit image of the polynomial hash. */
  lemma {:induction false} HashIsTruncatedPolynomial(s: string)
    ensures HashOf(s) == ToInt32(PolyHash(s))
  {
    if |s| > 0 {
      var init := s[..|s| - 1];
      HashIsTruncatedPolynomial(init);
      StepCongruent(PolyHash(init), s[|s| - 1] as int);
    } else {
      assert ToInt32(0) == 0;
    }
  }

  /** The hash loop of `badgeColorFor`. */
  method BadgeHash(tag: string) returns (hash: int)
    ensures hash == ToInt32(PolyHash(tag))
    ensures -TwoTo31 <= hash < TwoTo31
  {
    hash := 0;
    var i := 0;
    while i < |tag|
      invariant 0 <= i <= |tag|
      invariant hash == HashOf(tag[..i])
    {
      assert tag[..i + 1][..i] == tag[..i];
      hash := ToInt32(hash * 31 + tag[i] as int);
      i := i + 1;
    }
    assert tag[..i] == tag;
    HashIsTruncatedPolynomial(tag);
  }

  function Abs(x: int): nat { if x < 0 then -x else x }

  /** `Math.abs(hash) % colors.length`. */
  function BadgeIndex(tag: string): (i: nat)
    ensures i < |Palette|
    ensures i == Abs(ToInt32(PolyHash(tag))) % |Palette|
  {
    assert HashOf(tag) == ToInt32(PolyHash(tag)) by { HashIsTruncatedPolynomial(tag); }
    Abs(HashOf(tag)) % |Palette|
  }

  function BadgeColorFor(tag: string): (color: string)
    ensures color in Palette
  {
    Palette[BadgeIndex(tag)]
  }

  /** A one-letter tag takes the colour of its character code. */
  lemma SingleCharacterTagColour(c: char)
    ensures BadgeColorFor([c]) == Palette[(c as int) % 6]
  {
    assert [c][..0] == [];
    assert HashOf([c]) == ToInt32(c as int);
    assert ToInt32(c as int) == c as int;
  }

  // ----- the card -----

  const MaxChars: nat := 100
  const MaxCardTags: nat := 4
  const Ellipsis: string := "\U{2026}"

  datatype Badge = Badge(caption: string, color: string)

  /** What a card shows: the description text, the ellipsis after it, the
      toggle button's label if there is one, and the badges. */
  datatype CardView = CardView(text: string, ellipsis: bool, toggle: Option<string>, badges: seq<Badge>)

  function CardFor(s: Listing.Startup, expanded: bool): (v: CardView)
    ensures v.toggle.Some? <==> |s.description| > MaxChars
    ensures v.toggle.Some? ==> v.toggle.value == (if expanded then "Show Less" else "Read More")
    ensures v.ellipsis <==> |s.description| > MaxChars && !expanded
    ensures |v.text| <= |s.description| && v.text == s.description[..|v.text|]
    ensures v.text == s.description <==> expanded || |s.description| <= MaxChars
    ensures !expanded ==> |v.text| <= MaxChars
    ensures !expanded && |s.description| > MaxChars ==> v.text == s.description[..MaxChars]
    ensures |v.badges| == Listing.Min(MaxCardTags, |s.hashtags|)
    ensures forall k :: 0 <= k < |v.badges| ==>
      v.badges[k] == Badge("#" + s.hashtags[k], BadgeColorFor(s.hashtags[k]))
  {
    var long := |s.description| > MaxChars;
    var text := if expanded then s.description else Seqs.Take(s.description, MaxChars);
    var tags := Seqs.Take(s.hashtags, MaxCardTags);
    CardView(
      text,
      long && !expanded,
      if long then Some(if expanded then "Show Less" else "Read More") else None,
      seq(|tags|, k requires 0 <= k < |tags| => Badge("#" + tags[k], BadgeColorFor(tags[k]))))
  }

  /** A collapsed card, ellipsis included, never reads longer than 101
      characters, and it hides something exactly when it shows the
      ellipsis. */
  lemma CollapsedCardFitsLimit(s: Listing.Startup)
    ensures var v := CardFor(s, false);
      && |v.text + (if v.ellipsis then Ellipsis else "")| <= MaxChars + 1
      && (v.ellipsis <==> v.text != s.description)
  {
  }
}
