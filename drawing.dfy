/** The drawing surface the command parser draws on (a `System.Drawing.Graphics`
    in the original program), modelled as the record of the calls made on it
    together with the translation those calls leave in force. */
module Drawing {
  import opened Int32Text

  datatype Color = Black | Red | Green | Blue | White

  /** The colours a `pen` command can select. */
  type PenColor = c: Color | c != White witness Black

  datatype Point = Point(x: Int32, y: Int32)

  /** One call on the surface. Shapes carry the colour of the pen (or of
      its brush) they were drawn with. */
  datatype SurfaceOp =
    | ResetTransform
    | TranslateTransform(dx: Int32, dy: Int32)
    | Clear(background: Color)
    | DrawLine(lineColor: Color, from: Point, to: Point)
    | DrawRectangle(rectColor: Color, x: Int32, y: Int32, width: Int32, height: Int32)
    | FillRectangle(rectColor: Color, x: Int32, y: Int32, width: Int32, height: Int32)
    | DrawEllipse(ellipseColor: Color, x: Int32, y: Int32, width: Int32, height: Int32)
    | FillEllipse(ellipseColor: Color, x: Int32, y: Int32, width: Int32, height: Int32)
    | DrawPolygon(polygonColor: Color, points: seq<Point>)
    | FillPolygon(polygonColor: Color, points: seq<Point>)

  /** The translation in force after the calls of `log`, made on a surface
      that started with the identity transform: the sum of the
      translations since the last reset. */
  function Origin(log: seq<SurfaceOp>): (int, int) {
    if log == [] then (0, 0)
    else
      var last := log[|log| - 1];
      if last.ResetTransform? then (0, 0)
      else
        var before := Origin(log[..|log| - 1]);
        if last.TranslateTransform? then (before.0 + last.dx, before.1 + last.dy) else before
  }

  /** A reset followed by a translation leaves exactly that translation in
      force, whatever was in force before. */
  lemma {:induction false} ResetThenTranslate(log: seq<SurfaceOp>, dx: Int32, dy: Int32)
    ensures Origin(log + [ResetTransform, TranslateTransform(dx, dy)]) == (dx, dy)
  {
    var l := log + [ResetTransform, TranslateTransform(dx, dy)];
    assert l[..|l| - 1] == log + [ResetTransform];
    assert (log + [ResetTransform])[..|log|] == log;
  }

  /** A call other than a reset or a translation leaves the translation alone. */
  lemma OriginKeptBy(log: seq<SurfaceOp>, op: SurfaceOp)
    requires !op.ResetTransform? && !op.TranslateTransform?
    ensures Origin(log + [op]) == Origin(log)
  {
    assert (log + [op])[..|log|] == log;
  }

  /** A recorder standing in for `Graphics`: every call is appended to
      `log`, and `origin` is the translation currently in force. */
  class Surface {
    var origin: (int, int)
    var log: seq<SurfaceOp>

    ghost predicate Valid()
      reads this
    {
      origin == Origin(log)
    }

    constructor ()
      ensures Valid() && log == []
    {
      origin := (0, 0);
      log := [];
    }

    method Record(op: SurfaceOp)
      requires Valid()
      requires !op.ResetTransform? && !op.TranslateTransform?
      modifies this
      ensures Valid() && log == old(log) + [op] && origin == old(origin)
    {
      var next := log + [op];
      OriginKeptBy(log, op);
      log := next;
    }

    method ResetTransform()
      requires Valid()
      modifies this
      ensures Valid() && log == old(log) + [SurfaceOp.ResetTransform] && origin == (0, 0)
    {
      log := log + [SurfaceOp.ResetTransform];
      origin := (0, 0);
    }

    method TranslateTransform(dx: Int32, dy: Int32)
      requires Valid()
      modifies this
      ensures Valid() && log == old(log) + [SurfaceOp.TranslateTransform(dx, dy)]
      ensures origin == (old(origin).0 + dx, old(origin).1 + dy)
    {
      var next := log + [SurfaceOp.TranslateTransform(dx, dy)];
      assert next[..|log|] == log;
      log := next;
      origin := (origin.0 + dx, origin.1 + dy);
    }

    method Clear(color: Color)
      requires Valid()
      modifies this
      ensures Valid() && log == old(log) + [SurfaceOp.Clear(color)] && origin == old(origin)
    {
      Record(SurfaceOp.Clear(color));
    }

    method DrawLine(color: Color, x1: Int32, y1: Int32, x2: Int32, y2: Int32)
      requires Valid()
      modifies this
      ensures Valid() && origin == old(origin)
      ensures log == old(log) + [SurfaceOp.DrawLine(color, Point(x1, y1), Point(x2, y2))]
    {
      Record(SurfaceOp.DrawLine(color, Point(x1, y1), Point(x2, y2)));
    }

    method DrawRectangle(color: Color, x: Int32, y: Int32, width: Int32, height: Int32)
      requires Valid()
      modifies this
      ensures Valid() && origin == old(origin)
      ensures log == old(log) + [SurfaceOp.DrawRectangle(color, x, y, width, height)]
    {
      Record(SurfaceOp.DrawRectangle(color, x, y, width, height));
    }

    method FillRectangle(color: Color, x: Int32, y: Int32, width: Int32, height: Int32)
      requires Valid()
      modifies this
      ensures Valid() && origin == old(origin)
      ensures log == old(log) + [SurfaceOp.FillRectangle(color, x, y, width, height)]
    {
      Record(SurfaceOp.FillRectangle(color, x, y, width, height));
    }

    method DrawEllipse(color: Color, x: Int32, y: Int32, width: Int32, height: Int32)
      requires Valid()
      modifies this
      ensures Valid() && origin == old(origin)
      ensures log == old(log) + [SurfaceOp.DrawEllipse(color, x, y, width, height)]
    {
      Record(SurfaceOp.DrawEllipse(color, x, y, width, height));
    }

    method FillEllipse(color: Color, x: Int32, y: Int32, width: Int32, height: Int32)
      requires Valid()
      modifies this
      ensures Valid() && origin == old(origin)
      ensures log == old(log) + [SurfaceOp.FillEllipse(color, x, y, width, height)]
    {
      Record(SurfaceOp.FillEllipse(color, x, y, width, height));
    }

    method DrawPolygon(color: Color, points: seq<Point>)
      requires Valid()
      modifies this
      ensures Valid() && origin == old(origin)
      ensures log == old(log) + [SurfaceOp.DrawPolygon(color, points)]
    {
      Record(SurfaceOp.DrawPolygon(color, points));
    }

    method FillPolygon(color: Color, points: seq<Point>)
      requires Valid()
      modifies this
      ensures Valid() && origin == old(origin)
      ensures log == old(log) + [SurfaceOp.FillPolygon(color, points)]
    {
      Record(SurfaceOp.FillPolygon(color, points));
    }
  }
}
