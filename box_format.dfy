/**
 * Bounding-box format conversion through the XYXY corner form.
 *
 * The per-format formulas belong to a conversion module that is not part of
 * this model, so they are a parameter here: a Converter supplies, for every
 * non-corner format, the map into corner form and the map out of it. What
 * the geometry relies on is only that the two undo each other (RoundTrips).
 * The corner form itself never goes through the converter.
 */
module BoxFormat {
  import opened Features

  /** The external per-box conversions between a non-corner format and XYXY. */
  datatype Converter = Converter(toXyxy: (BoundingBoxFormat, Box) -> Box, fromXyxy: (BoundingBoxFormat, Box) -> Box)

  /** The converter's two maps are inverse to each other on every non-corner format. */
  ghost predicate RoundTrips(c: Converter) {
    (forall f, b :: f != XYXY ==> c.fromXyxy(f, c.toXyxy(f, b)) == b) &&
    (forall f, b :: f != XYXY ==> c.toXyxy(f, c.fromXyxy(f, b)) == b)
  }

  /** Converts one box from oldFormat to newFormat, passing through XYXY. */
  function Convert(c: Converter, b: Box, oldFormat: BoundingBoxFormat, newFormat: BoundingBoxFormat): Box {
    if oldFormat == newFormat then b
    else
      var corners := if oldFormat == XYXY then b else c.toXyxy(oldFormat, b);
      if newFormat == XYXY then corners else c.fromXyxy(newFormat, corners)
  }

  /** A conversion between two formats is undone by the conversion back. */
  lemma ConvertRoundTrip(c: Converter, b: Box, a: BoundingBoxFormat, z: BoundingBoxFormat)
    requires RoundTrips(c)
    ensures Convert(c, Convert(c, b, a, z), z, a) == b
  {
    if a != z && a != XYXY && z != XYXY {
      assert c.toXyxy(z, c.fromXyxy(z, c.toXyxy(a, b))) == c.toXyxy(a, b);
    }
  }

  /** Converting through an intermediate format is the same as converting directly. */
  lemma ConvertComposes(c: Converter, b: Box, a: BoundingBoxFormat, m: BoundingBoxFormat, z: BoundingBoxFormat)
    requires RoundTrips(c)
    ensures Convert(c, Convert(c, b, a, m), m, z) == Convert(c, b, a, z)
  {
    if a != m && m != z && a == z {
      ConvertRoundTrip(c, b, a, m);
    }
  }

  /**
   * Converts a batch of boxes into a new array (the conversion with copy=True):
   * every box is converted on its own and the input is left as it was.
   */
  method ConvertBoundingBoxFormat(c: Converter, boxes: array<Box>, oldFormat: BoundingBoxFormat, newFormat: BoundingBoxFormat)
    returns (converted: array<Box>)
    ensures fresh(converted)
    ensures converted.Length == boxes.Length
    ensures forall k :: 0 <= k < boxes.Length ==> converted[k] == Convert(c, boxes[k], oldFormat, newFormat)
  {
    converted := new Box[boxes.Length];
    for i := 0 to boxes.Length
      invariant forall k :: 0 <= k < i ==> converted[k] == Convert(c, boxes[k], oldFormat, newFormat)
    {
      converted[i] := Convert(c, boxes[i], oldFormat, newFormat);
    }
  }
}
