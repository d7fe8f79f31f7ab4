/**
 * The viewer count shown under a room card on the home screen: in units of ten
 * thousand (万), of a thousand (k), or as the plain number, each rounded down.
 */
module HomeScreen {
  import opened Wrappers
  import opened Text
  import opened Bytes
  import opened LiveModel

  /** `formatViewCount(count)`. */
  function FormatViewCount(count: Int32): string {
    if count >= 10000 then Decimal(count / 10000) + "万 watching"
    else if count >= 1000 then Decimal(count / 1000) + "k watching"
    else Decimal(count) + " watching"
  }

  /** The unit the count is shown in. */
  function Unit(count: int): nat {
    if count >= 10000 then 10000 else if count >= 1000 then 1000 else 1
  }

  /** The text after the number, naming the unit. */
  function Suffix(count: int): string {
    if count >= 10000 then "万 watching" else if count >= 1000 then "k watching" else " watching"
  }

  /**
   * The text is a number followed by its unit's suffix, and that number, read
   * back, is how many whole units the count holds: the count rounded down to the
   * unit, never rounded up. Counts of a thousand or more show at least 1.
   */
  lemma ViewCountShown(count: Int32) returns (digits: string, shown: int)
    ensures FormatViewCount(count) == digits + Suffix(count)
    ensures ParseInt(digits, 10) == Some(shown)
    ensures shown * Unit(count) <= count < shown * Unit(count) + Unit(count)
    ensures count >= 1000 ==> shown >= 1
  {
    var u := Unit(count);
    shown := count / u;
    digits := Decimal(shown);
    ParseIntToString(shown, 10);
  }

  /** The count line of a room card: present only when someone is watching. */
  function ViewCountLine(room: LiveRoomItem): (r: Option<string>)
    requires -0x8000_0000 <= room.online < 0x8000_0000
    ensures r.Some? <==> room.online > 0
    ensures r.Some? ==> r.value == FormatViewCount(room.online)
  {
    if room.online > 0 then Some(FormatViewCount(room.online)) else None
  }
}
