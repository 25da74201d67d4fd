/**
 * `prepareStyles` and `convertToClassNameString`
 * (`frontend/src/css/classname.js`): the style props become one class-name
 * string, and every other prop passes through.
 */
module StyleProps {
  import opened Wrappers
  import opened Strings
  import opened JsValues
  import opened ClassNames

  /** `items.flat(Infinity)`: nested arrays are spliced in, at any depth. */
  function Flatten(items: seq<JsValue>): (r: seq<JsValue>)
    ensures forall i :: 0 <= i < |r| ==> !r[i].Arr?
    decreases items
  {
    if |items| == 0 then []
    else
      var head := if items[0].Arr? then Flatten(items[0].items) else [items[0]];
      head + Flatten(items[1..])
  }

  /** `.filter((item) => typeof item === "string")`, unwrapped. */
  function KeepStrings(items: seq<JsValue>): (r: seq<string>)
    ensures |r| <= |items|
    ensures forall s {:trigger s in r} :: s in r <==> Str(s) in items
    ensures forall s {:trigger multiset(r)[s]} :: multiset(r)[s] == multiset(items)[Str(s)]
  {
    if |items| == 0 then []
    else
      var rest := KeepStrings(items[1..]);
      assert items == [items[0]] + items[1..];
      assert multiset(items) == multiset{items[0]} + multiset(items[1..]);
      assert forall x :: x in items <==> x == items[0] || x in items[1..];
      if items[0].Str? then [items[0].s] + rest else rest
  }

  /**
   * `convertToClassNameString(...items)`: the strings at any depth, joined by
   * single spaces. Splitting the result on spaces gives the pieces of every
   * kept string in order, so a string that already holds several classes (a
   * `gap` class pair, a multi-class `className`) contributes each of them;
   * when none of them holds a space the pieces are the strings themselves,
   * and with no string at all the result is empty.
   */
  function ConvertToClassNameString(items: seq<JsValue>): (r: string)
    ensures var kept := KeepStrings(Flatten(items));
            |kept| >= 1 ==> Split(r, ' ') == Pieces(kept, ' ')
    ensures var kept := KeepStrings(Flatten(items));
            |kept| >= 1 && (forall i :: 0 <= i < |kept| ==> ' ' !in kept[i]) ==> Split(r, ' ') == kept
    ensures KeepStrings(Flatten(items)) == [] ==> r == ""
  {
    var kept := KeepStrings(Flatten(items));
    if |kept| >= 1 then
      SplitJoinAll(kept, ' ');
      if forall i :: 0 <= i < |kept| ==> ' ' !in kept[i] then
        SplitJoin(kept, ' ');
        Join(kept, " ")
      else Join(kept, " ")
    else Join(kept, " ")
  }

  /** The props `prepareStyles` destructures out of `rest`. */
  const StyleKeys: set<string> := {
    "className", "display", "text", "position", "top", "right", "bottom", "left",
    "flex", "direction", "reverse", "align", "justify", "gap", "rowGap", "colGap",
    "height", "width", "minHeight", "maxHeight", "minWidth", "maxWidth",
    "fontSize", "fontWeight", "margin", "padding", "border", "outline"
  }

  /** A prop as destructuring reads it: `undefined` when absent. */
  function Prop(props: map<string, JsValue>, key: string): JsValue {
    if key in props then props[key] else Undefined
  }

  /**
   * The conditions under which no helper throws: valid dimensions, and no
   * `null` reaching a destructuring parameter.
   */
  predicate StylesAccepted(props: map<string, JsValue>) {
    && FixedAccepted(Prop(props, "height"))
    && FixedAccepted(Prop(props, "width"))
    && LimitedAccepted(Prop(props, "minHeight"), Prop(props, "maxHeight"))
    && LimitedAccepted(Prop(props, "minWidth"), Prop(props, "maxWidth"))
    && SpacingAccepted(Prop(props, "margin"), Prop(props, "padding"))
    && !Prop(props, "border").Null?
  }

  /** The class lists of the helpers that can throw, in call order. */
  datatype Checked = Checked(
    fixedHeight: seq<JsValue>, fixedWidth: seq<JsValue>,
    limitedHeight: seq<JsValue>, limitedWidth: seq<JsValue>,
    spacing: JsValue, border: seq<JsValue>)

  /** The throwing helpers run in source order; the first to throw decides the error. */
  function CheckedLists(props: map<string, JsValue>): (r: Result<Checked, StyleError>)
    ensures r.Ok? <==> StylesAccepted(props)
  {
    var fixedHeight :- FixedClasses("height", Prop(props, "height"));
    var fixedWidth :- FixedClasses("width", Prop(props, "width"));
    var limitedHeight :- LimitedClasses("height", Prop(props, "minHeight"), Prop(props, "maxHeight"));
    var limitedWidth :- LimitedClasses("width", Prop(props, "minWidth"), Prop(props, "maxWidth"));
    var spacing :- SpacingClasses(Prop(props, "margin"), Prop(props, "padding"));
    var border :- BorderClasses(Prop(props, "border"));
    Ok(Checked(fixedHeight, fixedWidth, limitedHeight, limitedWidth, spacing, border))
  }

  /**
   * The class lists in the order `prepareStyles` builds them, from the props
   * other than `outline` and the outline's (empty) contribution.
   */
  function ClassLists(props: map<string, JsValue>, outline: JsValue, extras: seq<JsValue>): (r: Result<seq<JsValue>, StyleError>)
    ensures r.Ok? <==> StylesAccepted(props)
    ensures r.Ok? ==> |r.value| == 14 && r.value[0] == Prop(props, "className") && r.value[12] == outline && r.value[13] == Arr(extras)
  {
    var c :- CheckedLists(props);
    Ok([ Prop(props, "className"),
         Arr(DisplayClasses(Prop(props, "display"), Prop(props, "text"))),
         Arr(PositionClasses(Prop(props, "position"), Prop(props, "top"), Prop(props, "right"), Prop(props, "bottom"), Prop(props, "left"))),
         Arr(FlexClasses(Prop(props, "flex"), Prop(props, "reverse"), Prop(props, "align"), Prop(props, "justify"), Prop(props, "direction"))),
         Arr(GapClasses(Prop(props, "gap"), Prop(props, "rowGap"), Prop(props, "colGap"))),
         Arr(FontClasses(Prop(props, "fontSize"), Prop(props, "fontWeight"))),
         Arr(c.fixedHeight), Arr(c.fixedWidth), Arr(c.limitedHeight), Arr(c.limitedWidth),
         c.spacing, Arr(c.border), outline, Arr(extras) ])
  }

  /** Acceptance does not read the outline prop. */
  lemma AcceptedWithoutOutline(props: map<string, JsValue>)
    ensures StylesAccepted(props - {"outline"}) <==> StylesAccepted(props)
  {
    assert forall k :: k != "outline" ==> Prop(props - {"outline"}, k) == Prop(props, k);
  }

  function StyleClasses(props: map<string, JsValue>, extras: seq<JsValue>): (r: Result<seq<JsValue>, StyleError>)
    ensures r.Ok? <==> StylesAccepted(props)
  {
    AcceptedWithoutOutline(props);
    ClassLists(props - {"outline"}, OutlineClasses(Prop(props, "outline")), extras)
  }

  /** `...rest`: the props that are not style props. */
  function Rest(props: map<string, JsValue>): (r: map<string, JsValue>)
    ensures r.Keys == props.Keys - StyleKeys
    ensures forall k :: k in r ==> r[k] == props[k]
  {
    map k | k in props && k !in StyleKeys :: props[k]
  }

  /** The non-style props with `className` set to the joined class lists. */
  function WithClassName(props: map<string, JsValue>, classes: seq<JsValue>): (r: map<string, JsValue>)
    ensures r.Keys == (props.Keys - StyleKeys) + {"className"}
    ensures forall k :: k in props && k !in StyleKeys ==> k in r && r[k] == props[k]
    ensures r["className"] == Str(ConvertToClassNameString([Arr(classes)]))
  {
    assert "className" in StyleKeys;
    Rest(props)["className" := Str(ConvertToClassNameString([Arr(classes)]))]
  }

  /**
   * `prepareStyles(props, ...extraClassNames)`: the non-style props, plus
   * the `className` built from the style props and the extra class names.
   */
  function PrepareStyles(props: map<string, JsValue>, extras: seq<JsValue>): (r: Result<map<string, JsValue>, StyleError>)
    ensures r.Ok? <==> StylesAccepted(props)
    ensures r.Ok? ==> r.value.Keys == (props.Keys - StyleKeys) + {"className"}
    ensures r.Ok? ==> forall k :: k in props && k !in StyleKeys ==> r.value[k] == props[k]
    ensures r.Ok? ==> r.value["className"].Str?
  {
    var classes :- StyleClasses(props, extras);
    Ok(WithClassName(props, classes))
  }

  // ---------------------------------------------------------------- lemmas

  /** A list without arrays flattens to itself. */
  lemma {:induction false} FlattenFlat(items: seq<JsValue>)
    requires forall i :: 0 <= i < |items| ==> !items[i].Arr?
    ensures Flatten(items) == items
    decreases |items|
  {
    if |items| > 0 {
      FlattenFlat(items[1..]);
      assert items == [items[0]] + items[1..];
    }
  }

  /** Flattening distributes over concatenation. */
  lemma {:induction false} FlattenAppend(a: seq<JsValue>, b: seq<JsValue>)
    ensures Flatten(a + b) == Flatten(a) + Flatten(b)
    decreases |a|
  {
    if |a| > 0 {
      FlattenAppend(a[1..], b);
      assert (a + b)[1..] == a[1..] + b;
      assert (a + b)[0] == a[0];
    } else {
      assert a + b == b;
    }
  }

  /** Flattening twice is flattening once. */
  lemma FlattenIdempotent(items: seq<JsValue>)
    ensures Flatten(Flatten(items)) == Flatten(items)
  {
    FlattenFlat(Flatten(items));
  }

  /** Of a list of strings, the filter keeps every string in order. */
  lemma {:induction false} KeepAllStrings(items: seq<JsValue>)
    requires forall i :: 0 <= i < |items| ==> items[i].Str?
    ensures KeepStrings(items) == seq(|items|, i requires 0 <= i < |items| => items[i].s)
    decreases |items|
  {
    if |items| > 0 {
      KeepAllStrings(items[1..]);
    }
  }

  /**
   * Classes without spaces can be read back from the class name: splitting
   * it on spaces gives them in order.
   */
  lemma ClassNameSplitsBack(classes: seq<string>)
    requires |classes| >= 1
    requires forall i :: 0 <= i < |classes| ==> ' ' !in classes[i]
    ensures Split(ConvertToClassNameString(seq(|classes|, i requires 0 <= i < |classes| => Str(classes[i]))), ' ') == classes
  {
    var items := seq(|classes|, i requires 0 <= i < |classes| => Str(classes[i]));
    FlattenFlat(items);
    KeepAllStrings(items);
    assert KeepStrings(items) == classes;
    SplitJoin(classes, ' ');
  }

  /**
   * A string that already holds two classes, as the `gap` pair does, gives
   * both classes back when the class name is split on spaces.
   */
  lemma ClassPairSplits(a: string, b: string)
    requires ' ' !in a && ' ' !in b
    ensures Split(ConvertToClassNameString([Str(a + " " + b)]), ' ') == [a, b]
  {
    var items := [Str(a + " " + b)];
    FlattenFlat(items);
    KeepAllStrings(items);
    assert KeepStrings(Flatten(items)) == [a + " " + b];
    assert Pieces([a + " " + b], ' ') == Split(a + " " + b, ' ') + Pieces([], ' ');
    assert a + " " + b == a + [' '] + b;
    SplitAroundSep(a, b, ' ');
    SplitPrefix(a, "", ' ');
    SplitPrefix(b, "", ' ');
    assert a + "" == a && b + "" == b;
  }

  /** Only strings reach the class name: numbers, booleans, `null` and objects are dropped. */
  lemma NonStringsDropped(items: seq<JsValue>, v: JsValue)
    requires !v.Str? && !v.Arr?
    ensures KeepStrings(Flatten(items + [v])) == KeepStrings(Flatten(items))
  {
    FlattenAppend(items, [v]);
    assert Flatten([v]) == [v] by {
      assert [v][1..] == [];
    }
    KeepStringsAppend(Flatten(items), [v]);
    assert KeepStrings([v]) == [] by {
      assert [v][1..] == [];
    }
  }

  /** The filter distributes over concatenation, so the kept strings stay in input order. */
  lemma {:induction false} KeepStringsAppend(a: seq<JsValue>, b: seq<JsValue>)
    ensures KeepStrings(a + b) == KeepStrings(a) + KeepStrings(b)
    decreases |a|
  {
    if |a| > 0 {
      var h: seq<string> := if a[0].Str? then [a[0].s] else [];
      calc {
        KeepStrings(a + b);
        == { assert a + b == [a[0]] + (a[1..] + b); KeepStringsCons(a[0], a[1..] + b); }
        h + KeepStrings(a[1..] + b);
        == { KeepStringsAppend(a[1..], b); }
        h + (KeepStrings(a[1..]) + KeepStrings(b));
        == { assert a == [a[0]] + a[1..]; KeepStringsCons(a[0], a[1..]); }
        KeepStrings(a) + KeepStrings(b);
      }
    } else {
      assert a + b == b;
    }
  }

  /** One step of the filter: the head is kept exactly when it is a string. */
  lemma KeepStringsCons(x: JsValue, rest: seq<JsValue>)
    ensures KeepStrings([x] + rest) == (if x.Str? then [x.s] else []) + KeepStrings(rest)
  {
    assert ([x] + rest)[1..] == rest;
  }

  /** The outline prop never changes the result: `outlineClasses` returns nothing. */
  lemma OutlineNeverContributes(props: map<string, JsValue>, extras: seq<JsValue>, v: JsValue)
    ensures PrepareStyles(props["outline" := v], extras) == PrepareStyles(props, extras)
  {
    OutlineIgnoredByClasses(props, extras, v);
    RestIgnoresOutline(props, v);
  }

  lemma RestIgnoresOutline(props: map<string, JsValue>, v: JsValue)
    ensures Rest(props["outline" := v]) == Rest(props)
  {
    assert "outline" in StyleKeys;
    assert Rest(props["outline" := v]).Keys == Rest(props).Keys;
  }

  lemma OutlineIgnoredByClasses(props: map<string, JsValue>, extras: seq<JsValue>, v: JsValue)
    ensures StyleClasses(props["outline" := v], extras) == StyleClasses(props, extras)
  {
    var props' := props["outline" := v];
    assert props' - {"outline"} == props - {"outline"} by {
      assert (props' - {"outline"}).Keys == (props - {"outline"}).Keys;
    }
    assert OutlineClasses(Prop(props', "outline")) == OutlineClasses(Prop(props, "outline"));
  }

  /** A non-style prop passes through unchanged, whatever its value. */
  lemma OtherPropsPassThrough(props: map<string, JsValue>, extras: seq<JsValue>, k: string)
    requires StylesAccepted(props) && k in props && k !in StyleKeys
    ensures PrepareStyles(props, extras).value[k] == props[k]
  {
  }

  /** An invalid fixed height is the error reported, ahead of every later helper. */
  lemma InvalidHeightReported(props: map<string, JsValue>, extras: seq<JsValue>)
    requires FixedClasses("height", Prop(props, "height")).Err?
    ensures PrepareStyles(props, extras) == Err(FixedClasses("height", Prop(props, "height")).error)
  {
    var e := FixedClasses("height", Prop(props, "height")).error;
    var inner := props - {"outline"};
    assert Prop(inner, "height") == Prop(props, "height");
    assert CheckedLists(inner) == Err(e);
    assert StyleClasses(props, extras) == Err(e);
  }
}
