/** Which ids are empty after trimming: those that spell nothing but white space. */
module Blanks {
  import opened Basics
  import opened JsonReader
  import opened Staging

  /** The code points with the White_Space property of Unicode. */
  predicate IsSpace(point: nat) {
    || 9 <= point <= 13 || point == 0x20 || point == 0x85 || point == 0xA0 || point == 0x1680
    || 0x2000 <= point <= 0x200A || point == 0x2028 || point == 0x2029 || point == 0x202F
    || point == 0x205F || point == 0x3000
  }

  /** The bytes of some text. */
  function Encoded(points: seq<nat>): string
    requires forall p :: p in points ==> IsSpace(p)
  {
    if points == [] then []
    else
      assert IsSpace(points[0]);
      Utf8(points[0]) + Encoded(points[1..])
  }

  lemma SpaceHasWidth(point: nat, rest: string)
    requires IsSpace(point)
    ensures Utf8(point) != [] && SpaceWidth(Utf8(point) + rest) == |Utf8(point)|
  {
    var s := Utf8(point) + rest;
    assert s[0] == Utf8(point)[0];
    if |Utf8(point)| > 1 {
      assert s[1] == Utf8(point)[1];
    }
    if |Utf8(point)| > 2 {
      assert s[2] == Utf8(point)[2];
    }
  }

  /** Something that has a width is a space and starts with its bytes. */
  lemma WidthIsSpace(s: string) returns (point: nat)
    requires SpaceWidth(s) > 0
    ensures IsSpace(point) && s[..SpaceWidth(s)] == Utf8(point)
  {
    var n := SpaceWidth(s);
    if n == 1 {
      point := s[0] as int;
    } else if n == 2 {
      point := s[1] as int;
      assert s[..2] == [s[0], s[1]];
    } else {
      point := (s[0] as int - 0xE0) * 4096 + (s[1] as int - 0x80) * 64 + (s[2] as int - 0x80);
      assert s[..3] == [s[0], s[1], s[2]];
    }
  }

  lemma {:induction false} SpacesOf(s: string) returns (points: seq<nat>)
    requires Blank(s)
    ensures (forall p :: p in points ==> IsSpace(p)) && s == Encoded(points)
    decreases |s|
  {
    if s == [] {
      points := [];
    } else {
      var n := SpaceWidth(s);
      var point := WidthIsSpace(s);
      var rest := SpacesOf(s[n..]);
      points := [point] + rest;
      assert points[1..] == rest && s == s[..n] + s[n..];
    }
  }

  lemma {:induction false} SpacesAreBlank(points: seq<nat>)
    requires forall p :: p in points ==> IsSpace(p)
    ensures Blank(Encoded(points))
  {
    if points != [] {
      var rest := Encoded(points[1..]);
      assert IsSpace(points[0]);
      SpaceHasWidth(points[0], rest);
      SpacesAreBlank(points[1..]);
      assert (Utf8(points[0]) + rest)[|Utf8(points[0])|..] == rest;
    }
  }

  /** A text is empty after trimming exactly if it is the encoding of white space and nothing else. */
  lemma BlankExactly(s: string)
    ensures Blank(s) <==> exists points :: (forall p :: p in points ==> IsSpace(p)) && s == Encoded(points)
  {
    if Blank(s) {
      var points := SpacesOf(s);
    }
    if points :| (forall p :: p in points ==> IsSpace(p)) && s == Encoded(points) {
      SpacesAreBlank(points);
    }
  }
}
