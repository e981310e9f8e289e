/** The pure parts of the rounded Tk widgets: the keystroke check of a phone
    entry and the outline of a rounded rectangle. */
module Widgets {
  import opened Text

  /** `RoundedEntry._validate_phone(new_value)`: the text the entry would
      hold after the keystroke is allowed when it is empty or made of the
      characters '0' to '9' only. */
  function ValidatePhone(newValue: string): (ok: bool)
    ensures newValue == "" ==> ok
    ensures ok <==> AllDigits(newValue)
  {
    if newValue == "" then true
    else forall i :: 0 <= i < |newValue| ==> newValue[i] in "0123456789"
  }

  /** The check accepts exactly the texts that filtering to digits leaves
      unchanged. */
  lemma ValidatePhoneMeansDigitsOnly(s: string)
    ensures ValidatePhone(s) <==> Digits(s) == s
  {
    DigitsOfDigitsOnly(s);
  }

  /** A text is allowed exactly when both of its parts are, so every text the
      entry ever holds, keystroke after keystroke, is digits only. */
  lemma ValidatePhoneConcat(a: string, b: string)
    ensures ValidatePhone(a + b) <==> ValidatePhone(a) && ValidatePhone(b)
  {
    if ValidatePhone(a) && ValidatePhone(b) {
      forall i | 0 <= i < |a + b| ensures IsDigit((a + b)[i]) {
        if i < |a| {
          assert (a + b)[i] == a[i];
        } else {
          assert (a + b)[i] == b[i - |a|];
        }
      }
    }
    if ValidatePhone(a + b) {
      forall i | 0 <= i < |a| ensures IsDigit(a[i]) {
        assert a[i] == (a + b)[i];
      }
      forall i | 0 <= i < |b| ensures IsDigit(b[i]) {
        assert b[i] == (a + b)[i + |a|];
      }
    }
  }

  /** A point on the canvas. */
  datatype Point = Point(x: int, y: int)

  /** The twelve points of `create_rounded_rect(x1, y1, x2, y2, radius)`, going
      clockwise from the top edge: two on each side where the corner arcs
      begin, and the four corners of the box as the arcs' control points. */
  function RoundedRectOutline(x1: int, y1: int, x2: int, y2: int, radius: int): (ps: seq<Point>)
    ensures |ps| == 12
    ensures ps[0] == Point(x1 + radius, y1) && ps[11] == Point(x1, y1)
  {
    [ Point(x1 + radius, y1), Point(x2 - radius, y1), Point(x2, y1),
      Point(x2, y1 + radius), Point(x2, y2 - radius), Point(x2, y2),
      Point(x2 - radius, y2), Point(x1 + radius, y2), Point(x1, y2),
      Point(x1, y2 - radius), Point(x1, y1 + radius), Point(x1, y1) ]
  }

  /** The flat list `[x0, y0, x1, y1, ...]` that `create_polygon` takes. */
  function Flatten(ps: seq<Point>): (flat: seq<int>)
    ensures |flat| == 2 * |ps|
    ensures forall i :: 0 <= i < |ps| ==> flat[2 * i] == ps[i].x && flat[2 * i + 1] == ps[i].y
  {
    if ps == [] then []
    else
      var rest := Flatten(ps[1..]);
      assert forall i :: 1 <= i < |ps| ==> ps[i] == ps[1..][i - 1];
      [ps[0].x, ps[0].y] + rest
  }

  /** The coordinate list built in `create_rounded_rect`: 24 numbers, from
      (x1 + radius, y1) round to (x1, y1). */
  function RoundedRectPoints(x1: int, y1: int, x2: int, y2: int, radius: int): (points: seq<int>)
    ensures |points| == 24
    ensures points[0] == x1 + radius && points[1] == y1
    ensures points[22] == x1 && points[23] == y1
  {
    var ps := RoundedRectOutline(x1, y1, x2, y2, radius);
    assert Flatten(ps)[2 * 11] == ps[11].x;
    Flatten(ps)
  }

  /** Every x coordinate is on one of the four vertical lines through the
      box's sides and the arcs' ends, and every y coordinate on one of the
      four horizontal ones. */
  lemma RoundedRectCoordinates(x1: int, y1: int, x2: int, y2: int, radius: int)
    ensures forall q :: q in RoundedRectOutline(x1, y1, x2, y2, radius) ==>
      q.x in {x1, x1 + radius, x2 - radius, x2} && q.y in {y1, y1 + radius, y2 - radius, y2}
  {
  }

  /** Every side of the outline, the closing one from the last point back to
      the first included, is horizontal or vertical. */
  lemma RoundedRectEdgesAxisAligned(x1: int, y1: int, x2: int, y2: int, radius: int)
    ensures var ps := RoundedRectOutline(x1, y1, x2, y2, radius);
      && (forall i :: 0 <= i < 11 ==> ps[i].x == ps[i + 1].x || ps[i].y == ps[i + 1].y)
      && (ps[11].x == ps[0].x || ps[11].y == ps[0].y)
  {
  }

  /** Each point moved by `(dx, dy)`. */
  function Translated(ps: seq<Point>, dx: int, dy: int): (r: seq<Point>)
    ensures |r| == |ps|
    ensures forall i :: 0 <= i < |r| ==> r[i] == Point(ps[i].x + dx, ps[i].y + dy)
  {
    seq(|ps|, i requires 0 <= i < |ps| => Point(ps[i].x + dx, ps[i].y + dy))
  }

  /** Moving the box moves the outline with it. */
  lemma RoundedRectTranslates(x1: int, y1: int, x2: int, y2: int, radius: int, dx: int, dy: int)
    ensures RoundedRectOutline(x1 + dx, y1 + dy, x2 + dx, y2 + dy, radius)
         == Translated(RoundedRectOutline(x1, y1, x2, y2, radius), dx, dy)
  {
  }
}
