/**
 * The class-list helpers of the CSS class-name builder
 * (`frontend/src/css/classname.js`). Each helper returns the array it
 * builds; elements are JavaScript values because some helpers push a prop
 * as it is, and only strings survive into the final class name.
 */
module ClassNames {
  import opened Wrappers
  import opened Strings
  import opened JsValues

  /** An error thrown while building classes. */
  datatype StyleError =
    | InvalidDimension(message: string)
      /** Destructuring `null` in a helper's parameter throws a TypeError. */
    | NullDestructure(helper: string)

  /** `` `${prefix}${v}` `` */
  function Template(prefix: string, v: JsValue): (r: JsValue)
    ensures r.Str? && IsPrefix(prefix, r.s)
    ensures |prefix| > 0 ==> Truthy(r)
  {
    Str(prefix + ToJsString(v))
  }

  /** `[v]` when `v` is truthy, `[]` otherwise. */
  function When(v: JsValue, c: JsValue): (r: seq<JsValue>)
    ensures Truthy(v) ==> r == [c]
    ensures !Truthy(v) ==> r == []
  {
    if Truthy(v) then [c] else []
  }

  /** The number of classes one `if (v) classes.push(…)` adds: 1 or 0. */
  function Flag(v: JsValue): nat {
    if Truthy(v) then 1 else 0
  }

  /**
   * `displayClasses(display, text)`: "flex" is renamed "flexbox"; the display
   * is pushed as it is. The `text-` class is present exactly when `text` is
   * truthy, unless the display itself happens to be that very string.
   */
  function DisplayClasses(display: JsValue, text: JsValue): (r: seq<JsValue>)
    ensures |r| == Flag(display) + Flag(text)
    ensures Truthy(text) ==> r[|r| - 1] == Template("text-", text)
    ensures Template("text-", text) in r <==> Truthy(text) || display == Template("text-", text)
  {
    var t := Template("text-", text);
    assert t != Str("flexbox") by {
      assert t.s[..5] == "text-";
      assert "flexbox"[..5] == "flexb";
    }
    When(display, if display == Str("flex") then Str("flexbox") else display)
    + When(text, t)
  }

  /** `positionClasses(position, top, right, bottom, left)` */
  function PositionClasses(position: JsValue, top: JsValue, right: JsValue, bottom: JsValue, left: JsValue): seq<JsValue> {
    When(position, position)
    + When(top, Template("top-", top))
    + When(right, Template("right-", right))
    + When(bottom, Template("bottom-", bottom))
    + When(left, Template("left-", left))
  }

  /** The direction after the parameter default, which applies only to `undefined`. */
  function DirectionOf(direction: JsValue): JsValue {
    if direction.Undefined? then Str("row") else direction
  }

  /**
   * `flexClasses(flex, reverse, align, justify, direction = "row")`: the
   * optional `flex-` class, the one direction class, then the optional
   * `align-` and `justify-` classes, each at its own slot.
   */
  function FlexClasses(flex: JsValue, reverse: JsValue, align: JsValue, justify: JsValue, direction: JsValue): (r: seq<JsValue>)
    ensures |r| == Flag(flex) + 1 + Flag(align) + Flag(justify)
    ensures Truthy(flex) ==> r[0] == Template("flex-", flex)
    ensures Truthy(align) ==> r[Flag(flex) + 1] == Template("align-", align)
    ensures Truthy(justify) ==> r[|r| - 1] == Template("justify-", justify)
  {
    var dir := DirectionOf(direction);
    When(flex, Template("flex-", flex))
    + [if Truthy(reverse) then Str(ToJsString(dir) + "-reverse") else dir]
    + When(align, Template("align-", align))
    + When(justify, Template("justify-", justify))
  }

  /**
   * `gapClasses(gap, rowGap, colGap)`: a truthy gap gives the row and column
   * gap classes of that value in one space-separated string; otherwise each
   * of `rowGap` and `colGap` contributes its class exactly when truthy.
   */
  function GapClasses(gap: JsValue, rowGap: JsValue, colGap: JsValue): (r: seq<JsValue>)
    ensures Truthy(gap) ==> r == [Str(Template("row-gap-", gap).s + " " + Template("column-gap-", gap).s)]
    ensures !Truthy(gap) ==> |r| == Flag(rowGap) + Flag(colGap)
    ensures !Truthy(gap) ==> (Template("row-gap-", rowGap) in r <==> Truthy(rowGap))
    ensures !Truthy(gap) ==> (Template("column-gap-", colGap) in r <==> Truthy(colGap))
  {
    if Truthy(gap) then
      var g := ToJsString(gap);
      assert "row-gap-" + g + " column-gap-" + g == ("row-gap-" + g) + " " + ("column-gap-" + g) by {
        assert " column-gap-" == " " + "column-gap-";
      }
      [Str("row-gap-" + g + " column-gap-" + g)]
    else
      TemplatesDiffer("row-gap-", "column-gap-", 0, rowGap, colGap);
      When(rowGap, Template("row-gap-", rowGap)) + When(colGap, Template("column-gap-", colGap))
  }

  /** `fontClasses(fontSize, fontWeight)` */
  function FontClasses(fontSize: JsValue, fontWeight: JsValue): seq<JsValue> {
    When(fontSize, Template("font-size-", fontSize)) + When(fontWeight, Template("font-weight-", fontWeight))
  }

  /** Two template classes whose prefixes differ at index `i` are different strings. */
  lemma TemplatesDiffer(p: string, q: string, i: nat, v: JsValue, w: JsValue)
    requires i < |p| && i < |q| && p[i] != q[i]
    ensures Template(p, v) != Template(q, w)
  {
    assert Template(p, v).s[i] == p[i];
    assert Template(q, w).s[i] == q[i];
  }

  /**
   * The dimensions `throwIfNotValidDimension` accepts, compared by string
   * form, in the source's order: five fractions, "full", every integer from
   * 0 to 32, and 40 to 96 in steps of 8.
   */
  const Fractions: seq<string> := ["1/4", "1/3", "1/2", "2/3", "3/4"]

  function Counting(): (r: seq<string>)
    ensures |r| == 33
  {
    seq(33, i requires 0 <= i < 33 => NatToString(i))
  }

  function Steps(): (r: seq<string>)
    ensures |r| == 8
  {
    seq(8, i requires 0 <= i < 8 => NatToString(40 + 8 * i))
  }

  function Allowed(): (r: seq<string>)
    ensures |r| == 47
  {
    Fractions + ["full"] + Counting() + Steps()
  }

  predicate ValidDimension(n: JsValue) {
    ToJsString(n) in Allowed()
  }

  /** The text of the thrown error, which names the value and lists the whitelist. */
  function InvalidMessage(n: JsValue, list: string): (m: string)
    ensures IsPrefix("Invalid dimension: " + ToJsString(n), m)
  {
    var head := "Invalid dimension: " + ToJsString(n);
    var m := head + " must be one of " + list;
    assert m[..|head|] == head;
    m
  }

  /** `allowed.join(", ")` */
  function AllowedList(): string { Join(Allowed(), ", ") }

  /** `throwIfNotValidDimension(n)` */
  function CheckDimension(n: JsValue): (r: Result<(), StyleError>)
    ensures r.Ok? <==> ValidDimension(n)
    ensures r.Err? ==> r.error.InvalidDimension? && IsPrefix("Invalid dimension: " + ToJsString(n), r.error.message)
  {
    if ValidDimension(n) then Ok(()) else Err(InvalidDimension(InvalidMessage(n, AllowedList())))
  }

  /** `false` is rewritten to 0, whose string form "0" is allowed. */
  lemma ZeroIsValid()
    ensures ToJsString(Int(0)) == "0"
    ensures ValidDimension(Int(0))
  {
    assert NatToString(0) == [DigitChar(0)];
    assert Allowed()[6] == Counting()[0] == "0";
  }

  /**
   * `fixedHeightClasses(height)` and `fixedWidthClasses(width)`, which differ
   * only in `axis`: `undefined` and `null` add nothing, `false` becomes 0,
   * anything else must be a valid dimension.
   */
  function FixedClasses(axis: string, v: JsValue): (r: Result<seq<JsValue>, StyleError>)
    ensures r.Ok? <==> FixedAccepted(v)
    ensures v.Undefined? || v.Null? ==> r == Ok([])
    ensures v == Bool(false) ==> r == Ok([Str("fixed-" + axis + "-0")])
    ensures !(v.Undefined? || v.Null? || v == Bool(false)) ==>
              (r.Ok? <==> ValidDimension(v)) && (r.Ok? ==> r.value == [Template("fixed-" + axis + "-", v)])
  {
    if v.Undefined? || v.Null? then Ok([])
    else
      var n := if v == Bool(false) then Int(0) else v;
      ZeroIsValid();
      assert "fixed-" + axis + "-" + "0" == "fixed-" + axis + "-0";
      var _ :- CheckDimension(n);
      Ok([Template("fixed-" + axis + "-", n)])
  }

  /** When a fixed height or width does not throw. */
  predicate FixedAccepted(v: JsValue) {
    v.Undefined? || v.Null? || v == Bool(false) || ValidDimension(v)
  }

  /** When a pair of bounds does not throw: every truthy bound is valid. */
  predicate LimitedAccepted(min: JsValue, max: JsValue) {
    (Truthy(min) ==> ValidDimension(min)) && (Truthy(max) ==> ValidDimension(max))
  }

  /** `limitedHeightClasses(min, max)` and `limitedWidthClasses(min, max)`: truthy bounds must be valid. */
  function LimitedClasses(axis: string, min: JsValue, max: JsValue): (r: Result<seq<JsValue>, StyleError>)
    ensures r.Ok? <==> LimitedAccepted(min, max)
    ensures r.Ok? ==> r.value == When(min, Template("min-" + axis + "-", min)) + When(max, Template("max-" + axis + "-", max))
  {
    var _ :- if Truthy(min) then CheckDimension(min) else Ok(());
    var _ :- if Truthy(max) then CheckDimension(max) else Ok(());
    Ok(When(min, Template("min-" + axis + "-", min)) + When(max, Template("max-" + axis + "-", max)))
  }

  /** `top || right || bottom || left` of a sides object. */
  predicate AnySide(v: JsValue) {
    Truthy(Field(v, "top")) || Truthy(Field(v, "right")) || Truthy(Field(v, "bottom")) || Truthy(Field(v, "left"))
  }

  /**
   * `marginClasses(sides)` (kind "margin") and `paddingClasses(sides)` (kind
   * "padding"). The `= {}` default covers only `undefined`; `null` throws.
   */
  function SideClasses(kind: string, v: JsValue): (r: Result<seq<JsValue>, StyleError>)
    ensures r.Err? <==> v.Null?
  {
    if v.Null? then Err(NullDestructure(kind + "Classes"))
    else
      var all, x, y := Field(v, "all"), Field(v, "x"), Field(v, "y");
      var top, right, bottom, left := Field(v, "top"), Field(v, "right"), Field(v, "bottom"), Field(v, "left");
      Ok(When(all, Template(kind + "-", all))
         + When(x, Template(kind + "-x-", x))
         + When(y, Template(kind + "-y-", y))
         + (if AnySide(v) then [Str("specific-" + kind)] else [])
         + When(top, Template(kind + "-top-", top))
         + When(right, Template(kind + "-right-", right))
         + When(bottom, Template(kind + "-bottom-", bottom))
         + When(left, Template(kind + "-left-", left)))
  }

  /** A truthy value that is not an object stands for `{ all: value }`. */
  function ToSides(v: JsValue): (r: JsValue)
    ensures Truthy(v) && !IsObject(v) ==> Field(r, "all") == v && !AnySide(r)
    ensures !(Truthy(v) && !IsObject(v)) ==> r == v
  {
    if Truthy(v) && !IsObject(v) then Obj(map["all" := v]) else v
  }

  /**
   * `spacingClasses(margin, padding)`: `[margin classes, padding classes]`
   * when either is truthy after the scalar rewrite, `undefined` otherwise.
   */
  function SpacingClasses(margin: JsValue, padding: JsValue): (r: Result<JsValue, StyleError>)
    ensures r.Ok? <==> SpacingAccepted(margin, padding)
    ensures !Truthy(margin) && !Truthy(padding) ==> r == Ok(Undefined)
  {
    var m, p := ToSides(margin), ToSides(padding);
    if Truthy(m) || Truthy(p) then
      var mc :- SideClasses("margin", m);
      var pc :- SideClasses("padding", p);
      Ok(Arr([Arr(mc), Arr(pc)]))
    else Ok(Undefined)
  }

  /**
   * When spacing does not throw: once either side list is truthy, both
   * helpers run, and neither may receive `null`.
   */
  predicate SpacingAccepted(margin: JsValue, padding: JsValue) {
    var m, p := ToSides(margin), ToSides(padding);
    (Truthy(m) || Truthy(p)) ==> !m.Null? && !p.Null?
  }

  /** A border width of `true` means 1. */
  function Width(w: JsValue): JsValue {
    if w == Bool(true) then Int(1) else w
  }

  /** `all || top || right || bottom || left` */
  predicate Bordered(v: JsValue) {
    Truthy(Field(v, "all")) || AnySide(v)
  }

  /** The border color after the `"dark"` default for `undefined`. */
  function ColorOf(v: JsValue): JsValue {
    if Field(v, "color").Undefined? then Str("dark") else Field(v, "color")
  }

  /** `borderClasses({ all, x, y, top, right, bottom, left, color = "dark" } = {})` */
  function BorderClasses(v: JsValue): (r: Result<seq<JsValue>, StyleError>)
    ensures r.Err? <==> v.Null?
  {
    if v.Null? then Err(NullDestructure("borderClasses"))
    else Ok((if Bordered(v) then [Str("bordered"), Template("border-", ColorOf(v))] else []) + BorderWidths(v))
  }

  /** The width classes of `borderClasses`; none of them is the "bordered" marker. */
  function BorderWidths(v: JsValue): (r: seq<JsValue>)
    ensures Str("bordered") !in r
  {
    var all, x, y := Field(v, "all"), Field(v, "x"), Field(v, "y");
    var top, right, bottom, left := Field(v, "top"), Field(v, "right"), Field(v, "bottom"), Field(v, "left");
    NotBorderedClass("border-", all);
    NotBorderedClass("border-x-", x);
    NotBorderedClass("border-y-", y);
    NotBorderedClass("border-top-", top);
    NotBorderedClass("border-right-", right);
    NotBorderedClass("border-bottom-", bottom);
    NotBorderedClass("border-left-", left);
    assert Str("specific-border") != Str("bordered");
    When(all, Template("border-", Width(all)))
    + When(x, Template("border-x-", Width(x)))
    + When(y, Template("border-y-", Width(y)))
    + (if AnySide(v) then [Str("specific-border")] else [])
    + When(top, Template("border-top-", Width(top)))
    + When(right, Template("border-right-", Width(right)))
    + When(bottom, Template("border-bottom-", Width(bottom)))
    + When(left, Template("border-left-", Width(left)))
  }

  /** `outlineClasses(color)` builds a list but returns nothing. */
  function OutlineClasses(color: JsValue): (r: JsValue)
    ensures r.Undefined?
  {
    Undefined
  }

  // ---------------------------------------------------------------- lemmas

  /** A display of "flex" becomes "flexbox"; any other truthy display is pushed unchanged. */
  lemma FlexBecomesFlexbox(display: JsValue, text: JsValue)
    requires Truthy(display)
    ensures display == Str("flex") ==> DisplayClasses(display, text)[0] == Str("flexbox")
    ensures display != Str("flex") ==> DisplayClasses(display, text)[0] == display
  {
  }

  /**
   * Exactly one direction class is emitted, after the optional `flex-` class;
   * every other class names the flex, alignment or justification.
   */
  lemma OneDirectionClass(flex: JsValue, reverse: JsValue, align: JsValue, justify: JsValue, direction: JsValue)
    ensures var r := FlexClasses(flex, reverse, align, justify, direction);
            var i := if Truthy(flex) then 1 else 0;
            && i < |r|
            && r[i] == (if Truthy(reverse) then Str(ToJsString(DirectionOf(direction)) + "-reverse") else DirectionOf(direction))
            && forall j :: 0 <= j < |r| && j != i ==>
                 r[j].Str? && (IsPrefix("flex-", r[j].s) || IsPrefix("align-", r[j].s) || IsPrefix("justify-", r[j].s))
    ensures direction.Undefined? && !Truthy(reverse) ==>
              FlexClasses(flex, reverse, align, justify, direction)[if Truthy(flex) then 1 else 0] == Str("row")
  {
    var r := FlexClasses(flex, reverse, align, justify, direction);
    var head := When(flex, Template("flex-", flex));
    var tail := When(align, Template("align-", align)) + When(justify, Template("justify-", justify));
    assert r == head + [r[|head|]] + tail;
  }

  /** A truthy `gap` gives one combined class and `rowGap`/`colGap` are ignored. */
  lemma GapOverridesRowAndColumn(gap: JsValue, rowGap: JsValue, colGap: JsValue)
    requires Truthy(gap)
    ensures |GapClasses(gap, rowGap, colGap)| == 1
    ensures GapClasses(gap, rowGap, colGap) == GapClasses(gap, Undefined, Undefined)
  {
  }

  /**
   * The position is pushed unchanged exactly when it is truthy, and comes
   * first; each truthy side's class follows at its own slot, in the order
   * top, right, bottom, left.
   */
  lemma PositionClassesContents(position: JsValue, top: JsValue, right: JsValue, bottom: JsValue, left: JsValue)
    ensures var r := PositionClasses(position, top, right, bottom, left);
            && |r| == Flag(position) + Flag(top) + Flag(right) + Flag(bottom) + Flag(left)
            && (Truthy(position) <==> |r| > 0 && r[0] == position)
            && (Truthy(top) ==> r[Flag(position)] == Template("top-", top))
            && (Truthy(right) ==> r[Flag(position) + Flag(top)] == Template("right-", right))
            && (Truthy(bottom) ==> r[Flag(position) + Flag(top) + Flag(right)] == Template("bottom-", bottom))
            && (Truthy(left) ==> r[|r| - 1] == Template("left-", left))
  {
    var t, ri, b, l := Template("top-", top), Template("right-", right), Template("bottom-", bottom), Template("left-", left);
    var w0, w1, w2, w3, w4 := When(position, position), When(top, t), When(right, ri), When(bottom, b), When(left, l);
    WhenShape(position, position);
    WhenShape(top, t);
    WhenShape(right, ri);
    WhenShape(bottom, b);
    WhenShape(left, l);
    var r := PositionClasses(position, top, right, bottom, left);
    assert r == w0 + w1 + w2 + w3 + w4;
  }

  /**
   * A side's class is present exactly when that side is truthy, unless the
   * position itself is that very string: the side prefixes differ in their
   * first letter, so no side's class is mistaken for another's.
   */
  lemma PositionSideMembers(position: JsValue, top: JsValue, right: JsValue, bottom: JsValue, left: JsValue)
    ensures var r := PositionClasses(position, top, right, bottom, left);
            && (Template("top-", top) in r <==> Truthy(top) || position == Template("top-", top))
            && (Template("right-", right) in r <==> Truthy(right) || position == Template("right-", right))
            && (Template("bottom-", bottom) in r <==> Truthy(bottom) || position == Template("bottom-", bottom))
            && (Template("left-", left) in r <==> Truthy(left) || position == Template("left-", left))
  {
    TemplatesDiffer("top-", "right-", 0, top, right);
    TemplatesDiffer("top-", "bottom-", 0, top, bottom);
    TemplatesDiffer("top-", "left-", 0, top, left);
    TemplatesDiffer("right-", "bottom-", 0, right, bottom);
    TemplatesDiffer("right-", "left-", 0, right, left);
    TemplatesDiffer("bottom-", "left-", 0, bottom, left);
    DistinctSlots(position, top, Template("top-", top), right, Template("right-", right),
                  bottom, Template("bottom-", bottom), left, Template("left-", left));
  }

  /**
   * Four distinct truthy classes, each pushed in its own slot after a leading
   * value pushed as it is: each class is present exactly when its prop is
   * truthy or the leading value is that class.
   */
  lemma DistinctSlots(lead: JsValue, v1: JsValue, c1: JsValue, v2: JsValue, c2: JsValue,
                      v3: JsValue, c3: JsValue, v4: JsValue, c4: JsValue)
    requires Truthy(c1) && Truthy(c2) && Truthy(c3) && Truthy(c4)
    requires c1 != c2 && c1 != c3 && c1 != c4 && c2 != c3 && c2 != c4 && c3 != c4
    ensures var r := When(lead, lead) + When(v1, c1) + When(v2, c2) + When(v3, c3) + When(v4, c4);
            && (c1 in r <==> Truthy(v1) || lead == c1)
            && (c2 in r <==> Truthy(v2) || lead == c2)
            && (c3 in r <==> Truthy(v3) || lead == c3)
            && (c4 in r <==> Truthy(v4) || lead == c4)
  {
    WhenMember(c1, lead, lead);
    WhenMember(c1, v1, c1);
    WhenMember(c1, v2, c2);
    WhenMember(c1, v3, c3);
    WhenMember(c1, v4, c4);
    WhenMember(c2, lead, lead);
    WhenMember(c2, v1, c1);
    WhenMember(c2, v2, c2);
    WhenMember(c2, v3, c3);
    WhenMember(c2, v4, c4);
    WhenMember(c3, lead, lead);
    WhenMember(c3, v1, c1);
    WhenMember(c3, v2, c2);
    WhenMember(c3, v3, c3);
    WhenMember(c3, v4, c4);
    WhenMember(c4, lead, lead);
    WhenMember(c4, v1, c1);
    WhenMember(c4, v2, c2);
    WhenMember(c4, v3, c3);
    WhenMember(c4, v4, c4);
  }

  lemma WhenMember(x: JsValue, v: JsValue, c: JsValue)
    ensures x in When(v, c) <==> Truthy(v) && x == c
  {
  }

  /** The one-or-no-element list of `When`, in terms of its flag. */
  lemma WhenShape(v: JsValue, c: JsValue)
    ensures |When(v, c)| == Flag(v)
    ensures Truthy(v) ==> When(v, c)[0] == c
    ensures forall x :: x in When(v, c) <==> Truthy(v) && x == c
  {
  }

  /** Each font class is present exactly when its prop is truthy; the size class comes first. */
  lemma FontClassesContents(fontSize: JsValue, fontWeight: JsValue)
    ensures var r := FontClasses(fontSize, fontWeight);
            && |r| == Flag(fontSize) + Flag(fontWeight)
            && (Template("font-size-", fontSize) in r <==> Truthy(fontSize))
            && (Template("font-weight-", fontWeight) in r <==> Truthy(fontWeight))
            && (Truthy(fontSize) ==> r[0] == Template("font-size-", fontSize))
  {
    TemplatesDiffer("font-size-", "font-weight-", 5, fontSize, fontWeight);
  }

  /** The non-numeric entries: fractions with a '/' and "full". */
  lemma NonNumericEntries()
    ensures forall f :: f in Fractions ==> |f| == 3 && f[1] == '/'
  {
  }

  /** The entries: fractions, "full", and the decimal forms of the allowed integers. */
  ghost predicate Listed(s: string) {
    s in Fractions || s == "full" || exists m: nat :: AllowedInteger(m) && s == NatToString(m)
  }

  lemma AllowedIsListed(s: string)
    requires s in Allowed()
    ensures Listed(s)
  {
    AllowedParts(s);
    if s in Counting() {
      CountingListed(s);
    } else if s in Steps() {
      StepsListed(s);
    }
  }

  /** Membership in the whitelist is membership in one of its four parts. */
  lemma AllowedParts(s: string)
    ensures s in Allowed() <==> s in Fractions || s == "full" || s in Counting() || s in Steps()
  {
    var c, t := Counting(), Steps();
    assert Allowed() == Fractions + ["full"] + c + t;
  }

  lemma CountingListed(s: string)
    requires s in Counting()
    ensures Listed(s)
  {
    var c := Counting();
    var i :| 0 <= i < |c| && c[i] == s;
    assert s == NatToString(i) && AllowedInteger(i);
  }

  lemma StepsListed(s: string)
    requires s in Steps()
    ensures Listed(s)
  {
    var t := Steps();
    var j :| 0 <= j < |t| && t[j] == s;
    StepEntry(j);
    assert AllowedInteger(40 + 8 * j);
  }

  lemma ListedIsAllowed(s: string)
    requires Listed(s)
    ensures s in Allowed()
  {
    AllowedParts(s);
    if exists m: nat :: AllowedInteger(m) && s == NatToString(m) {
      var m: nat :| AllowedInteger(m) && s == NatToString(m);
      if m <= 32 {
        assert Counting()[m] == s;
      } else {
        StepListed(m);
      }
    }
  }

  lemma StepListed(m: nat)
    requires 40 <= m <= 96 && m % 8 == 0
    ensures NatToString(m) in Steps()
  {
    var j := (m - 40) / 8;
    assert m == 40 + 8 * j;
    StepEntry(j);
  }

  /** A string is allowed iff it is a fraction, "full", or the decimal form of an allowed integer. */
  lemma AllowedMembers(s: string)
    ensures s in Allowed() <==> Listed(s)
  {
    if s in Allowed() {
      AllowedIsListed(s);
    }
    if Listed(s) {
      ListedIsAllowed(s);
    }
  }

  lemma StepEntry(j: int)
    requires 0 <= j < 8
    ensures Steps()[j] == NatToString(40 + 8 * j)
  {
  }

  /** A string that is neither all digits nor a fraction nor "full" is not allowed. */
  lemma NotAllowedUnlessDigits(s: string)
    requires !AllDigits(s) && s !in Fractions && s != "full"
    ensures s !in Allowed()
  {
    AllowedMembers(s);
    forall m: nat | AllowedInteger(m)
      ensures s != NatToString(m)
    {
      NatToStringDigits(m);
    }
  }

  /** An all-digit entry is the decimal form of an allowed integer. */
  lemma DigitEntry(s: string)
    requires Listed(s) && |s| >= 2 ==> IsDigit(s[1])
    requires Listed(s) && |s| >= 1 && IsDigit(s[0])
    ensures exists m: nat :: AllowedInteger(m) && s == NatToString(m)
  {
    NonNumericEntries();
  }

  /** 0.5 is not an allowed fixed dimension. */
  lemma HalfIsInvalid(axis: string)
    ensures FixedClasses(axis, Float("0.5")).Err?
  {
    RejectedText(axis, Float("0.5"), "0.5", 1);
  }

  lemma RejectedText(axis: string, v: JsValue, t: string, i: nat)
    requires v == Str(t) || v == Float(t)
    requires i < |t| && !IsDigit(t[i]) && t !in Fractions && t != "full"
    ensures FixedClasses(axis, v).Err?
  {
    assert ToJsString(v) == t;
    NotAllowedUnlessDigits(t);
  }

  /** "2px" is not an allowed fixed dimension. */
  lemma PixelsAreInvalid(axis: string)
    ensures FixedClasses(axis, Str("2px")).Err?
  {
    RejectedText(axis, Str("2px"), "2px", 1);
  }

  /** The integers the whitelist accepts: 0 to 32, and 40 to 96 in steps of 8. */
  predicate AllowedInteger(i: int) {
    (0 <= i <= 32) || (40 <= i <= 96 && i % 8 == 0)
  }

  /** A negative integer prints with a leading '-', which no entry has. */
  lemma NegativeIntegerInvalid(i: int)
    requires i < 0
    ensures !ValidDimension(Int(i))
  {
    var s := IntToString(i);
    assert s[0] == '-';
    assert !AllDigits(s);
    assert s !in Fractions by {
      assert forall f :: f in Fractions ==> f[0] != '-';
    }
    assert s != "full";
    NotAllowedUnlessDigits(s);
  }

  /** An allowed integer's decimal form is one of the entries. */
  lemma AllowedIntegerListed(n: nat)
    requires AllowedInteger(n)
    ensures NatToString(n) in Allowed()
  {
    AllowedMembers(NatToString(n));
  }

  /** Only an allowed integer's decimal form is an entry. */
  lemma ListedIntegerAllowed(n: nat)
    requires NatToString(n) in Allowed()
    ensures AllowedInteger(n)
  {
    var s := NatToString(n);
    AllowedIsListed(s);
    NatToStringDigits(n);
    DigitEntry(s);
    var m: nat :| AllowedInteger(m) && s == NatToString(m);
    SameDecimal(n, m);
  }

  lemma SameDecimal(a: nat, b: nat)
    requires NatToString(a) == NatToString(b)
    ensures a == b
  {
    assert IntToString(a) == NatToString(a) && IntToString(b) == NatToString(b);
    IntToStringInjective(a, b);
  }

  /** The decimal form of a natural number is allowed iff the number is an allowed integer. */
  lemma NaturalDimension(n: nat)
    ensures NatToString(n) in Allowed() <==> AllowedInteger(n)
  {
    if AllowedInteger(n) {
      AllowedIntegerListed(n);
    }
    if NatToString(n) in Allowed() {
      ListedIntegerAllowed(n);
    }
  }

  /** An integer dimension is accepted exactly when it is an allowed integer. */
  lemma ValidIntegerDimension(i: int)
    ensures ValidDimension(Int(i)) <==> AllowedInteger(i)
  {
    if i < 0 {
      NegativeIntegerInvalid(i);
    } else {
      NaturalDimension(i);
    }
  }

  /** Every class of a kind's template list other than the marker starts with the kind. */
  lemma {:induction false} SpecificMarkerOnce(kind: string, v: JsValue)
    requires !v.Null? && |kind| > 0 && kind[0] != 's'
    ensures multiset(SideClasses(kind, v).value)[Str("specific-" + kind)] == if AnySide(v) then 1 else 0
  {
    var marker := Str("specific-" + kind);
    var all, x, y := Field(v, "all"), Field(v, "x"), Field(v, "y");
    var top, right, bottom, left := Field(v, "top"), Field(v, "right"), Field(v, "bottom"), Field(v, "left");
    NotMarker(kind, "-", all);
    NotMarker(kind, "-x-", x);
    NotMarker(kind, "-y-", y);
    NotMarker(kind, "-top-", top);
    NotMarker(kind, "-right-", right);
    NotMarker(kind, "-bottom-", bottom);
    NotMarker(kind, "-left-", left);
  }

  /** A `kind`-prefixed template class is never the `specific-kind` marker. */
  lemma NotMarker(kind: string, infix: string, v: JsValue)
    requires |kind| > 0 && kind[0] != 's'
    ensures multiset(When(v, Template(kind + infix, v)))[Str("specific-" + kind)] == 0
  {
    if Truthy(v) {
      var t := Template(kind + infix, v);
      assert t.s[0] == kind[0];
      assert t != Str("specific-" + kind);
    }
  }

  /** A scalar margin is `{ all: margin }`: one `margin-` class and an empty padding list. */
  lemma ScalarMarginIsAll(margin: JsValue)
    requires Truthy(margin) && !IsObject(margin)
    ensures SpacingClasses(margin, Undefined) == Ok(Arr([Arr([Template("margin-", margin)]), Arr([])]))
  {
    var m := ToSides(margin);
    assert m.fields.Keys == {"all"} && Truthy(m);
    assert ToSides(Undefined) == Undefined;
    SidesOfUndefined("padding");
    SidesOfAllOnly("margin", m);
    assert "margin" + "-" == "margin-";
  }

  /** `undefined` takes the `{}` default and adds no class. */
  lemma SidesOfUndefined(kind: string)
    ensures SideClasses(kind, Undefined) == Ok([])
  {
    var u := Undefined;
    assert Field(u, "all") == Undefined;
    assert !AnySide(u);
    var r := SideClasses(kind, u);
    assert r.Ok? && |r.value| == 0;
  }

  /** A sides object with only `all` gives the single `kind-all` class. */
  lemma SidesOfAllOnly(kind: string, v: JsValue)
    requires v.Obj? && v.fields.Keys == {"all"} && Truthy(v.fields["all"])
    ensures SideClasses(kind, v) == Ok([Template(kind + "-", v.fields["all"])])
  {
    assert Field(v, "x") == Undefined && Field(v, "y") == Undefined;
    assert Field(v, "top") == Undefined && Field(v, "right") == Undefined;
    assert Field(v, "bottom") == Undefined && Field(v, "left") == Undefined;
    assert !AnySide(v);
    var r := SideClasses(kind, v);
    assert r.Ok? && |r.value| == 1;
    assert r.value[0] == Template(kind + "-", v.fields["all"]);
    assert r.value == [r.value[0]];
  }

  /** `null` margin with a truthy padding throws, as destructuring `null` does. */
  lemma NullMarginThrows(padding: JsValue)
    requires Truthy(padding)
    ensures SpacingClasses(Null, padding).Err?
  {
  }

  /** A `border-` template class is never "bordered": its seventh character is '-'. */
  lemma NotBorderedClass(prefix: string, w: JsValue)
    requires |prefix| >= 7 && prefix[6] == '-'
    ensures Str("bordered") !in When(w, Template(prefix, Width(w)))
  {
    if Truthy(w) {
      var t := Template(prefix, Width(w));
      assert t.s[6] == '-';
    }
  }

  /**
   * "bordered" appears iff `all` or a side is set, so `x` or `y` alone do
   * not add it; when it does, it comes with the color class.
   */
  lemma BorderedIffAllOrSide(v: JsValue)
    requires !v.Null?
    ensures Str("bordered") in BorderClasses(v).value <==> Bordered(v)
    ensures Bordered(v) ==> BorderClasses(v).value[..2] == [Str("bordered"), Template("border-", ColorOf(v))]
    ensures Field(v, "color").Undefined? ==> ColorOf(v) == Str("dark")
  {
  }

  /** A width of `true` is written as 1, for the whole border and for every axis and side. */
  lemma TrueBorderIsOne(v: JsValue)
    requires !v.Null?
    ensures Field(v, "all") == Bool(true) ==> Str("border-1") in BorderClasses(v).value
    ensures Field(v, "x") == Bool(true) ==> Str("border-x-1") in BorderClasses(v).value
    ensures Field(v, "y") == Bool(true) ==> Str("border-y-1") in BorderClasses(v).value
    ensures Field(v, "top") == Bool(true) ==> Str("border-top-1") in BorderClasses(v).value
    ensures Field(v, "right") == Bool(true) ==> Str("border-right-1") in BorderClasses(v).value
    ensures Field(v, "bottom") == Bool(true) ==> Str("border-bottom-1") in BorderClasses(v).value
    ensures Field(v, "left") == Bool(true) ==> Str("border-left-1") in BorderClasses(v).value
  {
    assert ToJsString(Int(1)) == "1" by {
      assert NatToString(1) == [DigitChar(1)];
    }
    TrueWidthClass("border-", Field(v, "all"));
    assert "border-" + "1" == "border-1";
    TrueWidthClass("border-x-", Field(v, "x"));
    assert "border-x-" + "1" == "border-x-1";
    TrueWidthClass("border-y-", Field(v, "y"));
    assert "border-y-" + "1" == "border-y-1";
    TrueWidthClass("border-top-", Field(v, "top"));
    assert "border-top-" + "1" == "border-top-1";
    TrueWidthClass("border-right-", Field(v, "right"));
    assert "border-right-" + "1" == "border-right-1";
    TrueWidthClass("border-bottom-", Field(v, "bottom"));
    assert "border-bottom-" + "1" == "border-bottom-1";
    TrueWidthClass("border-left-", Field(v, "left"));
    assert "border-left-" + "1" == "border-left-1";
    WidthsInBorderClasses(v);
  }

  /** The width classes are part of the border classes. */
  lemma WidthsInBorderClasses(v: JsValue)
    requires !v.Null?
    ensures forall c :: c in BorderWidths(v) ==> c in BorderClasses(v).value
  {
  }

  lemma TrueWidthClass(prefix: string, w: JsValue)
    requires ToJsString(Int(1)) == "1"
    ensures w == Bool(true) ==> When(w, Template(prefix, Width(w))) == [Str(prefix + "1")]
  {
  }
}
