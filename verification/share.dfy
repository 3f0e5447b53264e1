/** The wallet label printed on a share card (app/ui/share.py). */
module ShareCard {
  import opened Common
  import opened PyStr

  /** Longest address shown in full. */
  const MaxShownLength: nat := 12

  /** `_format_wallet`: a missing or empty address shows nothing; a stripped
      address of up to twelve characters shows in full; a longer one shows
      its first six and last four characters around an ellipsis. */
  function FormatWallet(address: Option<string>): (r: string)
    ensures address.None? || address == Some("") ==> r == ""
    ensures address.Some? && address.value != "" && |Strip(address.value)| <= MaxShownLength ==>
      r == Strip(address.value)
    ensures address.Some? && |Strip(address.value)| > MaxShownLength ==>
      var v := Strip(address.value);
      |r| == 11 && r[..6] == v[..6] && r[6] == '…' && r[7..] == v[|v| - 4..]
    ensures |r| <= MaxShownLength
  {
    if address.None? || address.value == "" then ""
    else
      var value := Strip(address.value);
      if |value| <= MaxShownLength then value else Shorten(value)
  }

  /** The first six and last four characters around an ellipsis. */
  function Shorten(value: string): (r: string)
    requires |value| > MaxShownLength
    ensures |r| == 11 && r[..6] == value[..6] && r[6] == '…' && r[7..] == value[|value| - 4..]
    ensures r[0] == value[0] && r[10] == value[|value| - 1]
  {
    value[..6] + "…" + value[|value| - 4..]
  }

  /** A shortened label strips to itself. */
  lemma ShortenIsTrimmed(value: string)
    requires |value| > MaxShownLength
    requires !IsSpace(value[0]) && !IsSpace(value[|value| - 1])
    ensures Strip(Shorten(value)) == Shorten(value)
  {
    var f := Shorten(value);
    assert !IsSpace(f[0]) && !IsSpace(f[|f| - 1]);
    StripOfTrimmed(f);
  }

  /** A label of up to twelve characters strips to itself and so formats to
      itself. */
  lemma ShortLabelIsFixed(f: string)
    requires f != [] && |f| <= MaxShownLength && Strip(f) == f
    ensures FormatWallet(Some(f)) == f
  {
  }

  /** Formatting a formatted label changes nothing. */
  lemma FormatWalletIdempotent(address: Option<string>)
    ensures FormatWallet(Some(FormatWallet(address))) == FormatWallet(address)
  {
    if address.Some? && address.value != "" {
      var value := Strip(address.value);
      if |value| > MaxShownLength {
        ShortenIsTrimmed(value);
        ShortLabelIsFixed(Shorten(value));
      } else if value != [] {
        StripIdempotent(address.value);
        ShortLabelIsFixed(value);
      }
    }
  }

  /** A long address keeps exactly its recognisable ends. */
  lemma FormatExample()
    ensures FormatWallet(Some("0x1234567890abcdef")) == "0x1234…cdef"
  {
    StripOfTrimmed("0x1234567890abcdef");
  }
}
