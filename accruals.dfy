/**
 * Background colour of the earnings-quality (accrual analysis) card. The zone
 * name comes from the spreadsheet; it is matched exactly and case-sensitively
 * against three names, and every other value gets the low-quality colour.
 */
module Accruals {

  const HighQualityEarnings: string := "High-Quality Earnings"
  const EarlyWarningZone: string := "Early Warning Zone"
  const AssetHeavyOperations: string := "Asset-Heavy Operations"

  /** True for the three zone names the card has a colour of its own for. */
  predicate NamedZone(zone: string) {
    zone == HighQualityEarnings || zone == EarlyWarningZone || zone == AssetHeavyOperations
  }

  const Green: string := "#1f7a1f"
  const Amber: string := "#7a6a1f"
  const Blue: string := "#1f4e7a"
  const Red: string := "#7a1f1f"

  /** The card colour for a zone name. */
  function ZoneColour(zone: string): (colour: string)
    ensures zone == HighQualityEarnings ==> colour == Green
    ensures zone == EarlyWarningZone ==> colour == Amber
    ensures zone == AssetHeavyOperations ==> colour == Blue
    ensures colour == Red <==> !NamedZone(zone)
  {
    if zone == HighQualityEarnings then Green
    else if zone == EarlyWarningZone then Amber
    else if zone == AssetHeavyOperations then Blue
    else Red
  }

  /** The colour tells the named zones apart and sets them apart from every other value. */
  lemma ZoneColourIdentifiesZone(z1: string, z2: string)
    requires ZoneColour(z1) == ZoneColour(z2)
    ensures z1 == z2 || (!NamedZone(z1) && !NamedZone(z2))
  {
    assert Green[3] != Amber[3] && Green[3] != Blue[3] && Amber[2] != Blue[2];
  }

  /** Matching is exact: a differently cased or padded name, like an unknown one, gets the default colour. */
  lemma ZoneMatchIsCaseSensitive()
    ensures ZoneColour("high-quality earnings") == Red
    ensures ZoneColour("Early Warning Zone ") == Red
    ensures ZoneColour("Unrecognized Value") == Red
  {
  }
}
