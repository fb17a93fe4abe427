/**
  The static tables of the theme editor: the schema of known `theme.txt` properties
  (`THEME_GLOBALS`, in declaration order) and the nine named menu positions
  (`POSITION_MAP`) with their `(left, top)` percentages.
*/
module ThemeSchema {
  import opened Wrappers
  import opened Dicts

  /** The editor widget kind of a property (its "type" entry). */
  datatype Kind = Text | Font | Color | File | Dropdown(options: seq<string>)

  /** One schema entry. A virtual property is never written as a top-level line. */
  datatype Property = Property(key: string, kind: Kind, group: string, isVirtual: bool)

  /** The `(left, top)` pair written into a `boot_menu` block. */
  datatype Coords = Coords(left: string, top: string)

  const PositionNames: seq<string> :=
    ["Northwest", "North", "Northeast", "West", "Center", "East", "Southwest", "South", "Southeast"]

  /** `POSITION_MAP`, in its declaration order. */
  const PositionMap: Dict<Coords> := [
    Entry("Northwest", Coords("5%", "5%")), Entry("North", Coords("25%", "5%")),
    Entry("Northeast", Coords("45%", "5%")),
    Entry("West", Coords("5%", "30%")), Entry("Center", Coords("25%", "30%")),
    Entry("East", Coords("45%", "30%")),
    Entry("Southwest", Coords("5%", "55%")), Entry("South", Coords("25%", "55%")),
    Entry("Southeast", Coords("45%", "55%"))
  ]

  /** `THEME_GLOBALS`, in its declaration order (labels and descriptions are presentation only). */
  const Globals: seq<Property> := [
    Property("title-text", Text, "General", false),
    Property("title-font", Font, "General", false),
    Property("title-color", Color, "General", false),
    Property("desktop-image", File, "Appearance", false),
    Property("desktop-color", Color, "Appearance", false),
    Property("menu-position", Dropdown(PositionNames), "Menu Layout", true),
    Property("terminal-font", Font, "Menu Layout", false),
    Property("progress-style", Dropdown(["bar"]), "Progress Bar", true),
    Property("progress-color", Color, "Progress Bar", true),
    Property("progress-bg-color", Color, "Progress Bar", true),
    Property("message-font", Font, "Styled Box", false),
    Property("message-color", Color, "Styled Box", false),
    Property("box-border-color", Color, "Styled Box", true),
    Property("box-bg-color", Color, "Styled Box", true),
    Property("selected-item-color", Color, "Styled Box", true),
    Property("selected-item-bg-color", Color, "Styled Box", true)
  ]

  /** `THEME_GLOBALS[key].get("virtual")` is true. */
  predicate IsVirtual(key: string) {
    key == "menu-position" || key == "progress-style" || key == "progress-color"
    || key == "progress-bg-color" || key == "box-border-color" || key == "box-bg-color"
    || key == "selected-item-color" || key == "selected-item-bg-color"
  }

  /** `key in THEME_GLOBALS`. */
  predicate IsKnown(key: string) {
    IsVirtual(key)
    || key == "title-text" || key == "title-font" || key == "title-color" || key == "desktop-image"
    || key == "desktop-color" || key == "terminal-font" || key == "message-font" || key == "message-color"
  }

  /** A known key that is written as a plain top-level line. */
  predicate IsPlain(key: string) {
    IsKnown(key) && !IsVirtual(key)
  }

  /** Every entry of the table is known, and virtual exactly when it carries the flag. */
  lemma SchemaEntries()
    ensures forall i :: 0 <= i < |Globals| ==> IsKnown(Globals[i].key)
    ensures forall i :: 0 <= i < |Globals| ==> (IsVirtual(Globals[i].key) <==> Globals[i].isVirtual)
  {
    forall i | 0 <= i < |Globals|
      ensures IsKnown(Globals[i].key) && (IsVirtual(Globals[i].key) <==> Globals[i].isVirtual)
    {
      SchemaEntry(i);
    }
  }

  /** One entry of the table, by its position. */
  lemma SchemaEntry(i: nat)
    requires i < |Globals|
    ensures IsKnown(Globals[i].key) && (IsVirtual(Globals[i].key) <==> Globals[i].isVirtual)
  {
    var p := Globals[i];
    if i < 4 {
      assert p.key in {"title-text", "title-font", "title-color", "desktop-image"} && !p.isVirtual;
    } else if i < 8 {
      assert i == 4 || i == 5 || i == 6 || i == 7;
    } else if i < 12 {
      assert i == 8 || i == 9 || i == 10 || i == 11;
    } else {
      assert p.isVirtual;
    }
  }

  /** Every known key has an entry in the table, and no key is listed twice. */
  lemma SchemaComplete(key: string)
    requires IsKnown(key)
    ensures exists i :: 0 <= i < |Globals| && Globals[i].key == key
  {
    var i :=
      if key == "title-text" then 0 else if key == "title-font" then 1
      else if key == "title-color" then 2 else if key == "desktop-image" then 3
      else if key == "desktop-color" then 4 else if key == "menu-position" then 5
      else if key == "terminal-font" then 6 else if key == "progress-style" then 7
      else if key == "progress-color" then 8 else if key == "progress-bg-color" then 9
      else if key == "message-font" then 10 else if key == "message-color" then 11
      else if key == "box-border-color" then 12 else if key == "box-bg-color" then 13
      else if key == "selected-item-color" then 14 else 15;
    assert Globals[i].key == key;
  }

  lemma SchemaDistinct()
    ensures forall i, j :: 0 <= i < j < |Globals| ==> Globals[i].key != Globals[j].key
  {
  }

  /** The options of the `menu-position` dropdown are exactly the names of `POSITION_MAP`, in order. */
  lemma PositionOptionsAreMapKeys()
    ensures Globals[5].key == "menu-position" && Globals[5].kind.Dropdown?
    ensures |Globals[5].kind.options| == |PositionMap|
    ensures forall i :: 0 <= i < |PositionMap| ==> Globals[5].kind.options[i] == PositionMap[i].key
  {
  }

  /** `POSITION_MAP[name]`, for a name among its keys. */
  function CoordsOf(name: string): Option<Coords> {
    if name == "Northwest" then Some(Coords("5%", "5%"))
    else if name == "North" then Some(Coords("25%", "5%"))
    else if name == "Northeast" then Some(Coords("45%", "5%"))
    else if name == "West" then Some(Coords("5%", "30%"))
    else if name == "Center" then Some(Coords("25%", "30%"))
    else if name == "East" then Some(Coords("45%", "30%"))
    else if name == "Southwest" then Some(Coords("5%", "55%"))
    else if name == "South" then Some(Coords("25%", "55%"))
    else if name == "Southeast" then Some(Coords("45%", "55%"))
    else None
  }

  /** `CoordsOf` reads the table: a name has coordinates iff some entry has that name. */
  lemma CoordsOfAgrees(name: string)
    ensures CoordsOf(name).Some? <==> exists i :: 0 <= i < |PositionMap| && PositionMap[i].key == name
    ensures forall i :: 0 <= i < |PositionMap| && PositionMap[i].key == name ==> CoordsOf(name) == Some(PositionMap[i].value)
  {
    if CoordsOf(name).Some? {
      var i :=
        if name == "Northwest" then 0 else if name == "North" then 1 else if name == "Northeast" then 2
        else if name == "West" then 3 else if name == "Center" then 4 else if name == "East" then 5
        else if name == "Southwest" then 6 else if name == "South" then 7 else 8;
      assert PositionMap[i].key == name;
    }
  }

  /** The reverse lookup of `parse_theme`: the first name, from entry `i` on, whose pair is `(left, top)`. */
  function PositionFrom(i: nat, left: string, top: string): Option<string>
    requires i <= |PositionMap|
    decreases |PositionMap| - i
  {
    if i == |PositionMap| then None
    else if PositionMap[i].value == Coords(left, top) then Some(PositionMap[i].key)
    else PositionFrom(i + 1, left, top)
  }

  function PositionFor(left: string, top: string): Option<string> {
    PositionFrom(0, left, top)
  }

  /** `POSITION_MAP` is injective: the nine names have nine distinct pairs. */
  lemma PositionMapInjective()
    ensures forall i, j :: 0 <= i < j < |PositionMap| ==> PositionMap[i].value != PositionMap[j].value
    ensures forall i, j :: 0 <= i < j < |PositionMap| ==> PositionMap[i].key != PositionMap[j].key
  {
  }

  /** The search from entry `i` finds entry `j` when `j` is the first match at or after `i`. */
  lemma {:induction false} PositionFromFinds(i: nat, j: nat, left: string, top: string)
    requires i <= j < |PositionMap|
    requires PositionMap[j].value == Coords(left, top)
    requires forall m :: i <= m < j ==> PositionMap[m].value != Coords(left, top)
    ensures PositionFrom(i, left, top) == Some(PositionMap[j].key)
    decreases j - i
  {
    if i < j {
      PositionFromFinds(i + 1, j, left, top);
    }
  }

  /** A search from entry `i` only finds an entry at or after `i` whose pair matches. */
  lemma {:induction false} PositionFromSound(i: nat, left: string, top: string)
    requires i <= |PositionMap|
    ensures PositionFrom(i, left, top).Some? ==>
      exists j :: i <= j < |PositionMap| && PositionMap[j].key == PositionFrom(i, left, top).value
        && PositionMap[j].value == Coords(left, top)
    decreases |PositionMap| - i
  {
    if i < |PositionMap| && PositionMap[i].value != Coords(left, top) {
      PositionFromSound(i + 1, left, top);
    }
  }

  /** The reverse lookup undoes the forward one, and finds only names whose pair matches. */
  lemma PositionRoundTrip(name: string, left: string, top: string)
    ensures CoordsOf(name) == Some(Coords(left, top)) <==> PositionFor(left, top) == Some(name)
  {
    PositionMapInjective();
    CoordsOfAgrees(name);
    if CoordsOf(name) == Some(Coords(left, top)) {
      var j :| 0 <= j < |PositionMap| && PositionMap[j].key == name;
      PositionFromFinds(0, j, left, top);
    }
    if PositionFor(left, top) == Some(name) {
      PositionFromSound(0, left, top);
    }
  }

  /** The lookup loop of `parse_theme`, which stops at the first matching entry. */
  method LookupPosition(left: string, top: string) returns (name: Option<string>)
    ensures name == PositionFor(left, top)
  {
    name := None;
    var i := 0;
    while i < |PositionMap|
      invariant 0 <= i <= |PositionMap|
      invariant forall m :: 0 <= m < i ==> PositionMap[m].value != Coords(left, top)
    {
      if PositionMap[i].value == Coords(left, top) {
        name := Some(PositionMap[i].key);
        PositionFromFinds(0, i, left, top);
        break;
      }
      i := i + 1;
    }
    if name.None? {
      PositionFromNone(0, left, top);
    }
  }

  /** A search that meets no matching entry finds nothing. */
  lemma {:induction false} PositionFromNone(i: nat, left: string, top: string)
    requires i <= |PositionMap|
    requires forall m :: i <= m < |PositionMap| ==> PositionMap[m].value != Coords(left, top)
    ensures PositionFrom(i, left, top) == None
    decreases |PositionMap| - i
  {
    if i < |PositionMap| {
      PositionFromNone(i + 1, left, top);
    }
  }
}
