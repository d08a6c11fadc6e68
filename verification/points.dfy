/** Screen points, the integer absolute value, and the two small tables that
    tie a junction classification to the glyph that is painted for it
    (regions.go and the outline-character table of lines.go). */
module Points {
  import opened Results

  /** An integer screen coordinate. */
  datatype Point = Point(x: int, y: int)

  /** The integer absolute value. */
  function Abs(i: int): (r: int)
    ensures r >= 0
    ensures r == i || r == -i
    ensures i >= 0 ==> r == i
  {
    if i >= 0 then i else -i
  }

  lemma AbsOfNegation(i: int)
    ensures Abs(i) == Abs(-i)
  {
  }

  /** How two orthogonal lines meet.  The toolkit encodes these as
      consecutive integers but leaves two slots unused (see Code). */
  datatype NexusType =
    | NexusTopLeft | NexusTopRight | NexusBottomLeft | NexusBottomRight
    | NexusLeftT | NexusRightT | NexusTopT | NexusBottomT | NexusCross
    | NexusNone
  {
    /** The integer the toolkit stores: slots 4 and 5 are skipped, so that the
        value can be used directly as an index into the outline table. */
    function Code(): int {
      match this
      case NexusTopLeft => 0
      case NexusTopRight => 1
      case NexusBottomLeft => 2
      case NexusBottomRight => 3
      case NexusLeftT => 6
      case NexusRightT => 7
      case NexusTopT => 8
      case NexusBottomT => 9
      case NexusCross => 10
      case NexusNone => 11
    }
  }

  /** The box-drawing characters of a border, in table order. */
  datatype OutlineChar = TL | TR | BL | BR | VB | HB | LT | RT | TT | BT | CR {
    function Index(): nat {
      match this
      case TL => 0
      case TR => 1
      case BL => 2
      case BR => 3
      case VB => 4
      case HB => 5
      case LT => 6
      case RT => 7
      case TT => 8
      case BT => 9
      case CR => 10
    }
  }

  /** The size of the outline table. */
  const NOutlineChars: nat := 11

  /** The table entry an integer selects, if it is a valid index. */
  function OutlineCharAt(i: int): (r: Option<OutlineChar>)
    ensures r.Some? <==> 0 <= i < NOutlineChars
    ensures r.Some? ==> r.value.Index() == i
  {
    if i == 0 then Some(TL)
    else if i == 1 then Some(TR)
    else if i == 2 then Some(BL)
    else if i == 3 then Some(BR)
    else if i == 4 then Some(VB)
    else if i == 5 then Some(HB)
    else if i == 6 then Some(LT)
    else if i == 7 then Some(RT)
    else if i == 8 then Some(TT)
    else if i == 9 then Some(BT)
    else if i == 10 then Some(CR)
    else None
  }

  /** The default Unicode code point of each outline character. */
  function DefaultRune(c: OutlineChar): int {
    match c
    case TL => 0x250C
    case TR => 0x2510
    case BL => 0x2514
    case BR => 0x2518
    case VB => 0x2502
    case HB => 0x2500
    case LT => 0x251C
    case RT => 0x2524
    case TT => 0x252C
    case BT => 0x2534
    case CR => 0x253C
  }

  /** The glyph a junction is drawn with, matched by name; a non-junction has
      no glyph. */
  function GlyphOf(k: NexusType): Option<OutlineChar> {
    match k
    case NexusTopLeft => Some(TL)
    case NexusTopRight => Some(TR)
    case NexusBottomLeft => Some(BL)
    case NexusBottomRight => Some(BR)
    case NexusLeftT => Some(LT)
    case NexusRightT => Some(RT)
    case NexusTopT => Some(TT)
    case NexusBottomT => Some(BT)
    case NexusCross => Some(CR)
    case NexusNone => None
  }

  /** Using a junction's integer code directly as a table index selects the
      glyph of the same name, and the "none" code is the first index past
      the table. */
  lemma NexusCodeSelectsGlyph(k: NexusType)
    ensures OutlineCharAt(k.Code()) == GlyphOf(k)
    ensures k == NexusNone <==> k.Code() == NOutlineChars
  {
  }

  /** Distinct junctions have distinct codes. */
  lemma NexusCodeInjective(a: NexusType, b: NexusType)
    ensures a.Code() == b.Code() ==> a == b
  {
  }

  /** Index and table lookup are inverse. */
  lemma OutlineIndexRoundTrip(c: OutlineChar)
    ensures OutlineCharAt(c.Index()) == Some(c)
  {
  }

  /** The default table holds eleven different characters. */
  lemma DefaultRunesDistinct(a: OutlineChar, b: OutlineChar)
    ensures DefaultRune(a) == DefaultRune(b) ==> a == b
  {
  }
}
