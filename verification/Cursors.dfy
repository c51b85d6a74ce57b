/** Page cursors: the URL-safe base64 form of a decimal offset. */
module Cursors {
  import opened Ascii
  import opened Numerals
  import opened Wrappers
  import Base64

  function EncodeCursor(offset: nat): string {
    Base64.Encode(AsciiBytes(Decimal(offset)), Base64.URL_SAFE)
  }

  function DecodeCursor(cursor: Option<string>): Result<nat> {
    match cursor
    case None => Ok(0)
    case Some(text) =>
      match Base64.Decode(text, Base64.URL_SAFE)
      case Err(e) => Err(e)
      case Ok(data) =>
        match AsciiText(data)
        case Some(value) =>
          if |value| > 0 && AllDigits(value) then Ok(ParseDecimal(value)) else Err("invalid cursor")
        case None => Err("invalid cursor")
  }

  /** Every offset survives the trip through its cursor. */
  lemma CursorRoundTrip(offset: nat)
    ensures DecodeCursor(Some(EncodeCursor(offset))) == Ok(offset)
    ensures DecodeCursor(None) == Ok(0)
  {
    hide Base64.Encode, Base64.Decode, AsciiBytes, AsciiText, ParseDecimal, Decimal;
    Base64.AlphabetsAreValid();
    Base64.RoundTrip(AsciiBytes(Decimal(offset)), Base64.URL_SAFE);
    AsciiRoundTrip(Decimal(offset));
    ParseOfDecimal(offset);
  }
}
