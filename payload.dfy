/**
 * The element-slide payloads the presentation service receives: every slide
 * variant is a `TITLE_AND_BODY_LAYOUT` of two stacked text boxes, a heading and
 * a body placed below it, and the body of the content slide is the bullet list
 * of the main points.
 */
module SlidePayload {
  import opened Results
  import opened Text

  const TitleAndBodyLayout: string := "TITLE_AND_BODY_LAYOUT"
  const Textbox: string := "textbox"
  const TextboxBasic: string := "textbox_basic"
  const HeadingSubtype: string := "heading"
  const BodySubtype: string := "mixed"
  const Auto: string := "auto"
  const HeadingHeight: nat := 56
  const BodyHeight: nat := 503

  /** `relative_position.top` of an element placed below another one: `{element_id, delta}`. */
  datatype Anchor = Anchor(elementId: string, delta: string)

  /**
   * The `dimensions` object. Only `manualHeight` differs between the two boxes;
   * the fields the source sends as `null`, `"auto"` or `false` are the same for
   * every element and are not represented.
   */
  datatype Dimensions = Dimensions(manualHeight: nat, minGridColumnCount: nat, gridColumnCount: nat)

  /** One element of the grid; `array_index`, `row_index`, `prose_mirror_content` and `background` are always null. */
  datatype Element = Element(
    id: string,
    kind: string,
    subtype: string,
    top: Option<Anchor>,
    left: Option<Anchor>,
    dimensions: Dimensions,
    presetType: string,
    content: string)

  /** `element_slide_variant`: a layout name and the element grid, row by row. */
  datatype SlideVariant = SlideVariant(layout: string, rows: seq<seq<Element>>)

  /** A basic text box of the full 24-column grid. */
  function TextboxElement(id: string, subtype: string, top: Option<Anchor>, manualHeight: nat, content: string): Element {
    Element(id, Textbox, subtype, top, None, Dimensions(manualHeight, 2, 24), TextboxBasic, content)
  }

  /**
   * The grid is one column of text boxes: each row holds exactly one element,
   * the first is not anchored, each later one is anchored with `delta: "auto"`
   * below the element of the row before it and has no left anchor, and no two
   * elements share an id.
   */
  ghost predicate StackedColumn(v: SlideVariant) {
    && (forall i | 0 <= i < |v.rows| :: |v.rows[i]| == 1 && v.rows[i][0].kind == Textbox && v.rows[i][0].left.None?)
    && (|v.rows| > 0 ==> v.rows[0][0].top.None?)
    && (forall i | 0 < i < |v.rows| :: v.rows[i][0].top == Some(Anchor(v.rows[i - 1][0].id, Auto)))
    && (forall i, j | 0 <= i < j < |v.rows| :: v.rows[i][0].id != v.rows[j][0].id)
  }

  /** The texts of a one-column grid, top to bottom. */
  function Contents(rows: seq<seq<Element>>): seq<string>
    requires forall i | 0 <= i < |rows| :: |rows[i]| == 1
  {
    seq(|rows|, i requires 0 <= i < |rows| => rows[i][0].content)
  }

  /**
   * The variant both slide builders send: a heading box with the heading text
   * on top and, below it, a body box with the body text.
   */
  function TitleAndBody(headingId: string, bodyId: string, heading: string, body: string): (v: SlideVariant)
    ensures v.layout == TitleAndBodyLayout && |v.rows| == 2
    ensures forall i | 0 <= i < |v.rows| :: |v.rows[i]| == 1
    ensures Contents(v.rows) == [heading, body]
  {
    var headingBox := TextboxElement(headingId, HeadingSubtype, None, HeadingHeight, heading);
    var bodyBox := TextboxElement(bodyId, BodySubtype, Some(Anchor(headingId, Auto)), BodyHeight, body);
    SlideVariant(TitleAndBodyLayout, [[headingBox], [bodyBox]])
  }

  /**
   * The variant is a `TITLE_AND_BODY_LAYOUT` of two rows of one box each, the
   * heading text above the body text; it is a proper stacked column, the body
   * anchored below the heading, exactly when the two drawn ids differ.
   */
  lemma TitleAndBodyShape(headingId: string, bodyId: string, heading: string, body: string)
    ensures var v := TitleAndBody(headingId, bodyId, heading, body);
      && v.layout == TitleAndBodyLayout && |v.rows| == 2
      && (forall i | 0 <= i < |v.rows| :: |v.rows[i]| == 1)
      && Contents(v.rows) == [heading, body]
      && v.rows[0][0].subtype == HeadingSubtype && v.rows[1][0].subtype == BodySubtype
      && (StackedColumn(v) <==> headingId != bodyId)
  {
  }

  // ---------------------------------------------------------------------------
  // The bullet list

  /**
   * The prefix each main point gets: the bullet character as the source file
   * spells it after a wrong decoding of its UTF-8 bytes, then a space. It is
   * kept as an opaque constant; only its lack of line breaks matters here.
   */
  const Bullet: string := "\U{00E2}\U{20AC}\U{00A2} "

  /** One main point as a bullet line. */
  function Bulleted(point: string): string {
    Bullet + point
  }

  /** `points.map(point => bullet + point)`. */
  function BulletLines(points: seq<string>): (lines: seq<string>)
    ensures |lines| == |points|
    ensures forall i | 0 <= i < |points| :: lines[i] == Bullet + points[i]
  {
    seq(|points|, i requires 0 <= i < |points| => Bulleted(points[i]))
  }

  /** The body of the content slide: "" without main points, else the bullet lines joined with line breaks. */
  function BulletList(points: seq<string>): (text: string)
    ensures text == "" <==> points == []
  {
    if points == [] then ""
    else
      JoinStartsWithFirst(BulletLines(points), '\n');
      Join(BulletLines(points), '\n')
  }

  /** A join starts with its first piece. */
  lemma JoinStartsWithFirst(parts: seq<string>, sep: char)
    requires parts != []
    ensures parts[0] <= Join(parts, sep)
  {
  }

  /**
   * Splitting the body at its line breaks gives back one line per main point,
   * the bullet followed by the point, when no point holds a line break.
   */
  lemma BulletListLines(points: seq<string>)
    requires points != []
    requires forall p | p in points :: '\n' !in p
    ensures Lines(BulletList(points)) == BulletLines(points)
    ensures |Lines(BulletList(points))| == |points|
    ensures forall i | 0 <= i < |points| :: Lines(BulletList(points))[i] == Bullet + points[i]
  {
    var lines := BulletLines(points);
    forall line | line in lines
      ensures '\n' !in line
    {
      var i :| 0 <= i < |lines| && lines[i] == line;
      assert points[i] in points;
      assert '\n' !in Bullet;
      assert line == Bullet + points[i];
    }
    SplitJoin(lines, '\n');
  }
}
