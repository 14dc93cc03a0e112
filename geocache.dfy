/**
  The geocache record as the list adapter sees it. Only the parts of the
  record that the adapter's list logic reads are kept: the geocode (for
  lookup), the event flag (for choosing the initial comparator) and the
  mutable "checked" flag used by multi-select. The record is an object:
  the adapter's list and its backup snapshot hold the same records, so a
  check made on one is seen through the other.
*/
module Geocaches {

  class Cache {
    const geocode: string
    const isEvent: bool
    var checked: bool

    constructor (geocode: string, isEvent: bool)
      ensures this.geocode == geocode && this.isEvent == isEvent
      ensures !checked
    {
      this.geocode := geocode;
      this.isEvent := isEvent;
      checked := false;
    }
  }

  /** Device or cache coordinates; never computed with here. */
  datatype Coords = Coords(latitude: real, longitude: real)

  /** Maps an ASCII upper-case letter to its lower-case form. */
  function FoldCase(c: char): char
  {
    if 'A' <= c <= 'Z' then (c as int + 32) as char else c
  }

  /** Case-insensitive string equality on the ASCII letters. */
  predicate EqualsIgnoreCase(a: string, b: string)
  {
    |a| == |b| && forall i | 0 <= i < |a| :: FoldCase(a[i]) == FoldCase(b[i])
  }
}
