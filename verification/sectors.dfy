/** The wheel's sectors: one coloured, labelled sector per name, coloured from
    a fixed palette by position. */
module Sectors {

  /** The fill colours, used in order and then repeated. */
  const Palette: seq<string> := [
    "#f22828", "#ff9400", "#2d96ff", "#4bc421", "#c12eee",
    "#E6B333", "#3366E6", "#999966", "#99FF99", "#B34D4D",
    "#80B300", "#809900", "#E6B3B3", "#6680B3", "#66991A",
    "#FF99E6", "#CCFF1A", "#FF1A66", "#E6331A", "#33FFCC",
    "#66994D", "#B366CC", "#4D8000", "#B33300", "#CC80CC",
    "#66664D", "#991AFF", "#E666FF", "#4DB3FF", "#1AB399",
    "#E666B3", "#33991A", "#CC9999", "#B3B31A", "#00E680",
    "#4D8066", "#809980", "#E6FF80", "#1AFF33", "#999933",
    "#FF3380", "#CCCC00", "#66E64D", "#4D80CC", "#9900B3",
    "#E64D66", "#4DB380", "#FF4D4D", "#99E6E6", "#6666FF"
  ]

  /** A sector record `{ color, label }`; `label` is a reserved word in Dafny,
      so the label is called `caption` here. */
  datatype Sector = Sector(color: string, caption: string)

  /** Colour of the sector at position `i`. */
  function ColorAt(i: nat): (c: string)
    ensures c in Palette
  {
    Palette[i % |Palette|]
  }

  /** `sectors(namesArray)`: one sector per name, in order, captioned with the
      name and coloured by its position alone. */
  function BuildSectors(names: seq<string>): (sectors: seq<Sector>)
    ensures |sectors| == |names|
    ensures forall i :: 0 <= i < |names| ==>
      sectors[i].caption == names[i] && sectors[i].color == ColorAt(i)
  {
    seq(|names|, i requires 0 <= i < |names| => Sector(ColorAt(i), names[i]))
  }

  /** The captions of a list of sectors, in order. */
  function Captions(sectors: seq<Sector>): seq<string> {
    seq(|sectors|, i requires 0 <= i < |sectors| => sectors[i].caption)
  }

  /** The captions of the built sectors are exactly the names. */
  lemma CaptionsOfSectors(names: seq<string>)
    ensures Captions(BuildSectors(names)) == names
  {
  }

  /** Appending names never recolours or relabels the existing sectors, so two
      lists with a common prefix agree on that prefix's sectors. */
  lemma PrefixStable(a: seq<string>, b: seq<string>)
    ensures BuildSectors(a + b)[..|a|] == BuildSectors(a)
  {
  }

  /** Colours repeat with the period of the palette's length (50). */
  lemma ColorPeriod(names: seq<string>, i: nat)
    requires i + 50 < |names|
    ensures BuildSectors(names)[i].color == BuildSectors(names)[i + 50].color
  {
    assert |Palette| == 50;
  }

  /** A sector's colour depends on its position only: any two name lists,
      whatever their names, paint position `i` alike. */
  lemma ColorByPosition(a: seq<string>, b: seq<string>, i: nat)
    requires i < |a| && i < |b|
    ensures BuildSectors(a)[i].color == BuildSectors(b)[i].color
  {
  }
}
