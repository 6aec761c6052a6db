/** Product identification and the product-dependent TCB codec (src/tcb.rs). */
module Tcb {
  import opened Bytes

  datatype Fms = Fms(family: byte, model: byte, stepping: byte)

  datatype Product = Milan | Genoa | Bergamo | Turin | UnknownProduct(fms: Fms)

  datatype Layout = LegacyLayout | TurinLayout

  function FromFms(fms: Fms): Product {
    if fms.family == 0x19 && fms.model <= 0x0F then Milan
    else if fms.family == 0x19 && 0x10 <= fms.model <= 0x1F then Genoa
    else if fms.family == 0x19 && 0xA0 <= fms.model <= 0xAF then Bergamo
    else if fms.family == 0x1A then Turin
    else UnknownProduct(fms)
  }

  function LayoutOf(product: Product): Layout {
    match product
    case Milan | Genoa | Bergamo => LegacyLayout
    case Turin => TurinLayout
    case UnknownProduct(fms) => if fms.family >= 0x1A then TurinLayout else LegacyLayout
  }

  /** Only the family decides the layout, whatever name the product gets, and a product that was
      named by hand has the layout of its own family. */
  lemma LayoutFollowsFamily(fms: Fms)
    ensures LayoutOf(FromFms(fms)) == LayoutOf(UnknownProduct(fms))
    ensures LayoutOf(FromFms(fms)) == TurinLayout <==> fms.family >= 0x1A
    ensures forall product :: LayoutOf(product) == TurinLayout <==>
                              product == Turin || (product.UnknownProduct? && product.fms.family >= 0x1A)
  {
  }

  /** Which parts have names: family 19h by ranges of models, and all of family 1Ah. */
  lemma ProductsAreNamed(fms: Fms)
    ensures FromFms(fms) == Milan <==> fms.family == 0x19 && fms.model / 16 == 0x0
    ensures FromFms(fms) == Genoa <==> fms.family == 0x19 && fms.model / 16 == 0x1
    ensures FromFms(fms) == Bergamo <==> fms.family == 0x19 && fms.model / 16 == 0xA
    ensures FromFms(fms) == Turin <==> fms.family == 0x1A
    ensures FromFms(fms).UnknownProduct? ==> FromFms(fms).fms == fms
  {
  }

  datatype TcbParts = TcbParts(fmc: Option<byte>, bootloader: byte, tee: byte, snp: byte, microcode: byte)

  /** `TcbVersion::decode` */
  function DecodeTcb(raw: u64, product: Product): TcbParts {
    var b := LeBytes(raw, 8);
    match LayoutOf(product)
    case LegacyLayout => TcbParts(None, b[0], b[1], b[6], b[7])
    case TurinLayout => TcbParts(Some(b[0]), b[1], b[2], b[3], b[7])
  }

  function PartBytes(p: TcbParts, layout: Layout): (s: seq<byte>)
    ensures |s| == 8
  {
    match layout
    case LegacyLayout => [p.bootloader, p.tee, 0, 0, 0, 0, p.snp, p.microcode]
    case TurinLayout => [p.fmc.UnwrapOr(0), p.bootloader, p.tee, p.snp, 0, 0, 0, p.microcode]
  }

  /** `TcbParts::encode` */
  function EncodeTcb(p: TcbParts, product: Product): u64 {
    LeU64(PartBytes(p, LayoutOf(product)))
  }

  /** The parts a layout can represent: an FMC number exactly where there is a slot for it. */
  predicate Fits(p: TcbParts, product: Product) {
    p.fmc.Some? <==> LayoutOf(product) == TurinLayout
  }

  /** Byte i of a TCB version means nothing under this layout. */
  predicate Unused(layout: Layout, i: nat) {
    if layout == LegacyLayout then 2 <= i < 6 else 4 <= i < 7
  }

  predicate UnusedBytesAreZero(raw: u64, product: Product) {
    forall i :: 0 <= i < 8 && Unused(LayoutOf(product), i) ==> LeBytes(raw, 8)[i] == 0
  }

  lemma EncodedBytes(p: TcbParts, product: Product)
    ensures LeBytes(EncodeTcb(p, product), 8) == PartBytes(p, LayoutOf(product))
  {
    LeBytesOfValue(PartBytes(p, LayoutOf(product)));
  }

  lemma RawOfBytes(raw: u64)
    ensures LeU64(LeBytes(raw, 8)) == raw
  {
    Widths();
    LeValueOfBytes(raw, 8);
  }

  /** Decoding what was encoded returns the parts exactly when the layout can hold them. */
  lemma DecodeAfterEncode(p: TcbParts, product: Product)
    ensures DecodeTcb(EncodeTcb(p, product), product) == p <==> Fits(p, product)
  {
    EncodedBytes(p, product);
  }

  /** Decoding and re-encoding clears the unused bytes and nothing else. */
  lemma NormalBytes(raw: u64, product: Product)
    ensures Fits(DecodeTcb(raw, product), product)
    ensures forall i :: 0 <= i < 8 ==>
              LeBytes(EncodeTcb(DecodeTcb(raw, product), product), 8)[i]
              == if Unused(LayoutOf(product), i) then 0 else LeBytes(raw, 8)[i]
  {
    EncodedBytes(DecodeTcb(raw, product), product);
  }

  /** Normalising a raw version never raises it, changes it exactly when a reserved byte was
      set, and is idempotent. */
  lemma NormalisationLowers(raw: u64, product: Product)
    ensures EncodeTcb(DecodeTcb(raw, product), product) <= raw
    ensures EncodeTcb(DecodeTcb(raw, product), product) == raw <==> UnusedBytesAreZero(raw, product)
    ensures var n := EncodeTcb(DecodeTcb(raw, product), product);
            EncodeTcb(DecodeTcb(n, product), product) == n
  {
    var parts := DecodeTcb(raw, product);
    var n := EncodeTcb(parts, product);
    var before, after := LeBytes(raw, 8), LeBytes(n, 8);
    NormalBytes(raw, product);
    RawOfBytes(raw);
    RawOfBytes(n);
    LeValueMonotone(after, before);
    if UnusedBytesAreZero(raw, product) {
      assert after == before;
    }
    DecodeAfterEncode(parts, product);
  }

  function Reading(a: nat, b: nat, c: nat, d: nat): nat {
    a + 0x100 * b + 0x1_0000 * c + 0x100_0000 * d
  }

  lemma ReadingOfEight(s: seq<byte>)
    requires |s| == 8
    ensures LeValue(s) == Reading(s[0], s[1], s[2], s[3]) + 0x1_0000_0000 * Reading(s[4], s[5], s[6], s[7])
  {
    LeValueConcat(s[..4], s[4..]);
    Widths();
    assert s == s[..4] + s[4..];
    ReadingOfFour(s[..4]);
    ReadingOfFour(s[4..]);
  }

  lemma ReadingOfFour(s: seq<byte>)
    requires |s| == 4
    ensures LeValue(s) == Reading(s[0], s[1], s[2], s[3])
  {
    assert LeValue(s[1..]) == s[1] + 0x100 * LeValue(s[1..][1..]);
    assert LeValue(s[1..][1..]) == s[2] + 0x100 * LeValue(s[1..][1..][1..]);
    assert LeValue(s[1..][1..][1..]) == s[3];
  }

  /** Older in the platform's sense: microcode decides first, then the SNP firmware, the PSP
      operating system, the bootloader, and the FMC last. */
  predicate Precedes(p: TcbParts, q: TcbParts) {
    if p.microcode != q.microcode then p.microcode < q.microcode
    else if p.snp != q.snp then p.snp < q.snp
    else if p.tee != q.tee then p.tee < q.tee
    else if p.bootloader != q.bootloader then p.bootloader < q.bootloader
    else p.fmc.UnwrapOr(0) < q.fmc.UnwrapOr(0)
  }

  /** Comparing raw versions compares their parts in that order, on either layout: this is
      what makes the derived order of `TcbVersion` usable at all. */
  lemma OrderIsLexicographic(p: TcbParts, q: TcbParts, product: Product)
    requires Fits(p, product) && Fits(q, product)
    ensures EncodeTcb(p, product) < EncodeTcb(q, product) <==> Precedes(p, q)
  {
    ReadingOfEight(PartBytes(p, LayoutOf(product)));
    ReadingOfEight(PartBytes(q, LayoutOf(product)));
  }

  predicate AtMost(p: TcbParts, q: TcbParts) {
    && p.fmc.UnwrapOr(0) <= q.fmc.UnwrapOr(0)
    && p.bootloader <= q.bootloader && p.tee <= q.tee && p.snp <= q.snp && p.microcode <= q.microcode
  }

  /** Raising any security version number raises the encoded version; parts the layout holds
      exactly are equal when their encodings are. */
  lemma EncodeIsMonotone(p: TcbParts, q: TcbParts, product: Product)
    requires AtMost(p, q)
    ensures EncodeTcb(p, product) <= EncodeTcb(q, product)
    ensures Fits(p, product) && Fits(q, product) && p != q ==> EncodeTcb(p, product) < EncodeTcb(q, product)
  {
    LeValueMonotone(PartBytes(p, LayoutOf(product)), PartBytes(q, LayoutOf(product)));
    DecodeAfterEncode(p, product);
    DecodeAfterEncode(q, product);
  }

  /** The older version a sealing client derives against (examples/derive_key.rs): one
      microcode step down, saturating; the whole word when the product is unknown. */
  function Older(raw: u64, product: Option<Product>): u64 {
    match product
    case None => if raw == 0 then 0 else raw - 1
    case Some(p) => OlderOf(raw, p)
  }

  function OlderOf(raw: u64, product: Product): u64 {
    var parts := DecodeTcb(raw, product);
    EncodeTcb(parts.(microcode := if parts.microcode == 0 then 0 else parts.microcode - 1), product)
  }

  lemma OlderThanNormal(raw: u64, product: Product)
    ensures var parts := DecodeTcb(raw, product);
            var n := EncodeTcb(parts, product);
            OlderOf(raw, product) <= n && (OlderOf(raw, product) < n <==> parts.microcode > 0)
  {
    var parts := DecodeTcb(raw, product);
    if parts.microcode == 0 {
      assert parts.(microcode := 0) == parts;
    } else {
      StepDown(parts, product);
    }
  }

  /** It never exceeds the version it was made from, and is strictly older exactly when there
      was a microcode step to take or a reserved byte to drop, or, for an unknown product, when
      the word was not zero. */
  lemma OlderIsOlder(raw: u64, product: Option<Product>)
    ensures Older(raw, product) <= raw
    ensures Older(raw, product) < raw <==>
            match product
            case None => raw > 0
            case Some(p) => DecodeTcb(raw, p).microcode > 0 || !UnusedBytesAreZero(raw, p)
  {
    if product.Some? {
      NormalisationLowers(raw, product.value);
      OlderThanNormal(raw, product.value);
    }
  }

  lemma StepDown(p: TcbParts, product: Product)
    requires Fits(p, product)
    ensures p.microcode > 0 ==>
              EncodeTcb(p.(microcode := p.microcode - 1), product) < EncodeTcb(p, product)
  {
    if p.microcode > 0 {
      EncodeIsMonotone(p.(microcode := p.microcode - 1), p, product);
    }
  }
}
