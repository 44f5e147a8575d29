/** The extras catalog the administrator edits: categories of items, with
    ids derived from names by slugging. */
module Catalog {
  import opened Optional
  import opened Seqs
  import Json

  datatype Item = Item(id: string, name: string, price: real, img: string)
  datatype Category = Category(id: string, name: string, items: seq<Item>)

  /** Why an edit sends nothing: no name (the prompt was cancelled or left
      blank), a category id already taken, or a cancelled image prompt. */
  datatype CatalogError = EmptyName | DuplicateCategory | Cancelled

  datatype Edit = Done(categories: seq<Category>) | Rejected(error: CatalogError)

  // ----- slugs -----

  predicate IsSlugChar(c: char) {
    'a' <= c <= 'z' || '0' <= c <= '9'
  }

  /** `toLowerCase` on the ASCII letters. */
  function LowerChar(c: char): char {
    if 'A' <= c <= 'Z' then (c as int + 32) as char else c
  }

  function Lower(s: string): (r: string)
    ensures |r| == |s| && forall i :: 0 <= i < |s| ==> r[i] == LowerChar(s[i])
  {
    seq(|s|, i requires 0 <= i < |s| => LowerChar(s[i]))
  }

  /** Drops the leading characters outside `[a-z0-9]`. */
  function SkipRun(s: string): (r: string)
    ensures |r| <= |s|
    ensures r == [] || IsSlugChar(r[0])
    decreases |s|
  {
    if s != [] && !IsSlugChar(s[0]) then SkipRun(s[1..]) else s
  }

  /** `replace(/[^a-z0-9]+/g, "-")`: every maximal run of other characters becomes one dash. */
  function Collapse(s: string): string
    decreases |s|
  {
    if s == [] then ""
    else if IsSlugChar(s[0]) then [s[0]] + Collapse(s[1..])
    else "-" + Collapse(SkipRun(s[1..]))
  }

  /** `name.toLowerCase().replace(/[^a-z0-9]+/g, "-")`. */
  function Slug(name: string): (r: string)
    ensures IsSlug(r)
  {
    CollapseIsSlug(Lower(name));
    Collapse(Lower(name))
  }

  /** A slug is made of `[a-z0-9]` and single dashes. */
  predicate IsSlug(s: string) {
    && (forall i :: 0 <= i < |s| ==> IsSlugChar(s[i]) || s[i] == '-')
    && (forall i :: 0 <= i < |s| - 1 ==> !(s[i] == '-' && s[i + 1] == '-'))
  }

  lemma {:induction false} CollapseIsSlug(s: string)
    ensures IsSlug(Collapse(s))
    ensures Collapse(s) != [] && Collapse(s)[0] == '-' ==> s != [] && !IsSlugChar(s[0])
    decreases |s|
  {
    if s == [] {
    } else if IsSlugChar(s[0]) {
      CollapseIsSlug(s[1..]);
    } else {
      var t := SkipRun(s[1..]);
      CollapseIsSlug(t);
      assert Collapse(t) != [] ==> Collapse(t)[0] != '-';
    }
  }

  /** Collapsing a slug gives it back. */
  lemma {:induction false} CollapseOfSlug(s: string)
    requires IsSlug(s)
    ensures Collapse(s) == s
    decreases |s|
  {
    if s != [] {
      assert IsSlug(s[1..]);
      CollapseOfSlug(s[1..]);
      if !IsSlugChar(s[0]) {
        assert s[0] == '-';
        assert s[1..] == [] || s[1] != '-';
        assert SkipRun(s[1..]) == s[1..];
      }
    }
  }

  /** Every slug is well formed, and slugging a slug changes nothing. */
  lemma SlugIdempotent(name: string)
    ensures IsSlug(Slug(name))
    ensures Slug(Slug(name)) == Slug(name)
  {
    var s := Slug(name);
    CollapseIsSlug(Lower(name));
    assert Lower(s) == s;
    CollapseOfSlug(s);
  }

  // ----- categories -----

  predicate HasCategory(cats: seq<Category>, id: string) {
    exists i :: 0 <= i < |cats| && cats[i].id == id
  }

  predicate UniqueIds(cats: seq<Category>) {
    forall i, j :: 0 <= i < j < |cats| ==> cats[i].id != cats[j].id
  }

  /** "+ Categoría": an empty name is ignored, a name whose slug is already a
      category id is refused, otherwise an empty category is appended. */
  function AddCategory(cats: seq<Category>, name: string): (r: Edit)
    ensures r.Rejected? <==> name == "" || HasCategory(cats, Slug(name))
    ensures r.Rejected? ==> r.error == (if name == "" then EmptyName else DuplicateCategory)
    ensures r.Done? ==> r.categories == cats + [Category(Slug(name), name, [])]
    ensures r.Done? && UniqueIds(cats) ==> UniqueIds(r.categories)
  {
    if name == "" then Rejected(EmptyName)
    else if HasCategory(cats, Slug(name)) then Rejected(DuplicateCategory)
    else Done(cats + [Category(Slug(name), name, [])])
  }

  /** "Renombrar": only the name of the category with that id changes. */
  function RenameCategory(cats: seq<Category>, id: string, newName: string): (r: Edit)
    ensures r.Rejected? <==> newName == ""
    ensures r.Done? ==> (|r.categories| == |cats|
                         && forall i :: 0 <= i < |cats| ==>
                              r.categories[i] == (if cats[i].id == id then cats[i].(name := newName) else cats[i]))
  {
    if newName == "" then Rejected(EmptyName)
    else Done(seq(|cats|, i requires 0 <= i < |cats| =>
                if cats[i].id != id then cats[i] else cats[i].(name := newName)))
  }

  /** "Eliminar Cat.": `filter(c => c.id !== id)`, the other categories in order. */
  function DeleteCategory(cats: seq<Category>, id: string): (r: seq<Category>)
    ensures forall c :: c in r <==> c in cats && c.id != id
    ensures |r| <= |cats|
  {
    Filter(cats, (c: Category) => c.id != id)
  }

  /** Applies `f` to the items of the category with id `catId`. */
  function MapCategory(cats: seq<Category>, catId: string, f: seq<Item> -> seq<Item>): (r: seq<Category>)
    ensures |r| == |cats|
    ensures forall i :: 0 <= i < |cats| ==>
      r[i] == if cats[i].id == catId then cats[i].(items := f(cats[i].items)) else cats[i]
  {
    seq(|cats|, i requires 0 <= i < |cats| =>
      if cats[i].id != catId then cats[i] else cats[i].(items := f(cats[i].items)))
  }

  function MapItems(items: seq<Item>, itemId: string, f: Item -> Item): (r: seq<Item>)
    ensures |r| == |items|
    ensures forall i :: 0 <= i < |items| ==> r[i] == if items[i].id == itemId then f(items[i]) else items[i]
  {
    seq(|items|, i requires 0 <= i < |items| => if items[i].id != itemId then items[i] else f(items[i]))
  }

  /** `filter(x => x.id !== itemId)`. */
  function WithoutItem(items: seq<Item>, itemId: string): (r: seq<Item>)
    ensures forall x :: x in r <==> x in items && x.id != itemId
  {
    Filter(items, (x: Item) => x.id != itemId)
  }

  /** "Imagen": sets the image path of that item in that category (an empty path
      is accepted); ids, names, prices and every other item stay as they were. */
  function SetItemImage(cats: seq<Category>, catId: string, itemId: string, url: string): (r: seq<Category>)
    ensures |r| == |cats|
    ensures forall i :: 0 <= i < |cats| ==>
              (&& r[i].id == cats[i].id && r[i].name == cats[i].name
               && |r[i].items| == |cats[i].items|
               && (forall j :: 0 <= j < |cats[i].items| ==>
                     r[i].items[j] == if cats[i].id == catId && cats[i].items[j].id == itemId
                                      then cats[i].items[j].(img := url) else cats[i].items[j]))
  {
    MapCategory(cats, catId, items => MapItems(items, itemId, (x: Item) => x.(img := url)))
  }

  /** `parseFloat(...) || it.price`: a price that did not parse (None) or parsed to 0 keeps the old one. */
  function EditedPrice(parsed: Option<real>, current: real): real {
    if parsed.Some? && parsed.value != 0.0 then parsed.value else current
  }

  /** "Editar": an empty name is ignored; otherwise every item with that id in
      the category with that id takes the name and the price the prompt gave,
      or `fallback` (the clicked item's price) when it gave none or 0. */
  function EditItem(cats: seq<Category>, catId: string, itemId: string, name: string,
                    parsed: Option<real>, fallback: real): (r: Edit)
    ensures r.Rejected? <==> name == ""
    ensures r.Rejected? ==> r.error == EmptyName
    ensures r.Done? ==>
      && |r.categories| == |cats|
      && forall i :: 0 <= i < |cats| ==>
           (&& r.categories[i].id == cats[i].id && r.categories[i].name == cats[i].name
            && |r.categories[i].items| == |cats[i].items|
            && (forall j :: 0 <= j < |cats[i].items| ==>
                  r.categories[i].items[j]
                  == if cats[i].id == catId && cats[i].items[j].id == itemId
                     then cats[i].items[j].(name := name, price := EditedPrice(parsed, fallback))
                     else cats[i].items[j]))
  {
    if name == "" then Rejected(EmptyName)
    else
      var price := EditedPrice(parsed, fallback);
      Done(MapCategory(cats, catId, items => MapItems(items, itemId, (x: Item) => x.(name := name, price := price))))
  }

  /** "Borrar": removes that item from that category. */
  function DeleteItem(cats: seq<Category>, catId: string, itemId: string): (r: seq<Category>)
    ensures |r| == |cats|
    ensures forall i :: 0 <= i < |cats| ==>
              && r[i].id == cats[i].id && r[i].name == cats[i].name
              && (cats[i].id != catId ==> r[i] == cats[i])
              && (cats[i].id == catId ==> r[i].items == WithoutItem(cats[i].items, itemId))
  {
    MapCategory(cats, catId, items => WithoutItem(items, itemId))
  }

  /** "+ Ítem": an empty name is ignored; otherwise every category with that id
      gets at its end an item whose id is the slug of its name, with the price
      the prompt gave (0 when none) and no image. Unlike a category, an item
      is NOT checked against the ids already there. */
  function AddItem(cats: seq<Category>, catId: string, name: string, parsed: Option<real>): (r: Edit)
    ensures r.Rejected? <==> name == ""
    ensures r.Rejected? ==> r.error == EmptyName
    ensures r.Done? ==>
      && |r.categories| == |cats|
      && forall i :: 0 <= i < |cats| ==>
           r.categories[i] == if cats[i].id == catId
                              then cats[i].(items := cats[i].items + [Item(Slug(name), name, EditedPrice(parsed, 0.0), "")])
                              else cats[i]
  {
    if name == "" then Rejected(EmptyName)
    else
      var item := Item(Slug(name), name, EditedPrice(parsed, 0.0), "");
      Done(MapCategory(cats, catId, items => items + [item]))
  }

  // ----- the edits as the administrator's buttons offer them -----

  /** A prompt answer: `prompt(...)?.trim()`, with a cancelled prompt read as "". */
  function PromptText(answer: Option<string>): string {
    if answer.None? then "" else Json.Trim(answer.value)
  }

  /** The catalog buttons. A button belongs to a rendered category `ci` (and
      item `xi` of it); a prompt answer is None when the prompt is cancelled,
      and a price is `parseFloat` of its answer, None when that is NaN. */
  datatype CatalogOp =
    | NewCategory(answer: Option<string>)                                    // "+ Categoría"
    | RenameCat(ci: nat, answer: Option<string>)                             // "Renombrar"
    | DropCategory(ci: nat)                                                  // "Eliminar Cat."
    | ItemImage(ci: nat, xi: nat, answer: Option<string>)                    // "Imagen"
    | ItemEdit(ci: nat, xi: nat, answer: Option<string>, price: Option<real>) // "Editar"
    | DropItem(ci: nat, xi: nat)                                             // "Borrar"
    | NewItem(ci: nat, answer: Option<string>, price: Option<real>)          // "+ Ítem"

  /** The button is on screen: its category (and item) exist. */
  predicate Offered(cats: seq<Category>, op: CatalogOp) {
    match op
      case NewCategory(_) => true
      case RenameCat(ci, _) => ci < |cats|
      case DropCategory(ci) => ci < |cats|
      case ItemImage(ci, xi, _) => ci < |cats| && xi < |cats[ci].items|
      case ItemEdit(ci, xi, _, _) => ci < |cats| && xi < |cats[ci].items|
      case DropItem(ci, xi) => ci < |cats| && xi < |cats[ci].items|
      case NewItem(ci, _, _) => ci < |cats|
  }

  /** What a button computes from the current categories. */
  function Apply(cats: seq<Category>, op: CatalogOp): (r: Edit)
    requires Offered(cats, op)
    ensures op.DropCategory? || op.DropItem? ==> r.Done?
    ensures op.ItemImage? ==> (r.Rejected? <==> op.answer.None?)
    ensures op.RenameCat? || op.ItemEdit? || op.NewItem? ==> (r.Rejected? <==> PromptText(op.answer) == "")
    ensures op.NewCategory? ==>
      (r.Rejected? <==> PromptText(op.answer) == "" || HasCategory(cats, Slug(PromptText(op.answer))))
  {
    match op
      case NewCategory(answer) => AddCategory(cats, PromptText(answer))
      case RenameCat(ci, answer) => RenameCategory(cats, cats[ci].id, PromptText(answer))
      case DropCategory(ci) => Done(DeleteCategory(cats, cats[ci].id))
      case ItemImage(ci, xi, answer) =>
        if answer.None? then Rejected(Cancelled)
        else Done(SetItemImage(cats, cats[ci].id, cats[ci].items[xi].id, Json.Trim(answer.value)))
      case ItemEdit(ci, xi, answer, price) =>
        var it := cats[ci].items[xi];
        EditItem(cats, cats[ci].id, it.id, PromptText(answer), price, it.price)
      case DropItem(ci, xi) => Done(DeleteItem(cats, cats[ci].id, cats[ci].items[xi].id))
      case NewItem(ci, answer, price) => AddItem(cats, cats[ci].id, PromptText(answer), price)
  }

  /** The log message of each button's merge. */
  function OpMessage(op: CatalogOp): string {
    match op
      case NewCategory(_) => "Agregar categoría"
      case RenameCat(_, _) => "Renombrar categoría"
      case DropCategory(_) => "Eliminar categoría"
      case ItemImage(_, _, _) => "Imagen ítem"
      case ItemEdit(_, _, _, _) => "Editar ítem"
      case DropItem(_, _) => "Eliminar ítem"
      case NewItem(_, _, _) => "Agregar ítem"
  }

  lemma TrimPadded()
    ensures Json.Trim("  Bebidas ") == "Bebidas" && Json.Trim("   ") == ""
  {
    assert Json.TrimStart("  Bebidas ") == Json.TrimStart(" Bebidas ") == "Bebidas ";
    assert Json.TrimEnd("Bebidas ") == "Bebidas";
    assert Json.TrimStart("   ") == Json.TrimStart("  ") == Json.TrimStart(" ") == "";
  }

  lemma SlugOfBebidas()
    ensures Slug("Bebidas") == "bebidas"
  {
    assert Lower("Bebidas") == "bebidas";
    assert IsSlug("bebidas");
    CollapseOfSlug("bebidas");
  }

  /** A name is trimmed before it is tested and slugged: padding does not get
      past the duplicate check, and blanks are no name. */
  lemma TrimmedBeforeSlug(cats: seq<Category>)
    requires HasCategory(cats, "bebidas")
    ensures Apply(cats, NewCategory(Some("  Bebidas "))) == Rejected(DuplicateCategory)
    ensures Apply(cats, NewCategory(Some("   "))) == Rejected(EmptyName)
  {
    TrimPadded();
    SlugOfBebidas();
    assert PromptText(Some("  Bebidas ")) == "Bebidas";
  }

  /** Editing an item keeps every category id and every item id. */
  lemma EditItemKeepsIds(cats: seq<Category>, catId: string, itemId: string, name: string,
                         parsed: Option<real>, fallback: real)
    requires name != ""
    ensures var r := EditItem(cats, catId, itemId, name, parsed, fallback).categories;
      && |r| == |cats|
      && forall i :: 0 <= i < |cats| ==>
           r[i].id == cats[i].id && |r[i].items| == |cats[i].items|
           && forall j :: 0 <= j < |cats[i].items| ==> r[i].items[j].id == cats[i].items[j].id
  {
  }

  /** An edited item whose price prompt gave nothing usable keeps the clicked item's price. */
  lemma EditItemKeepsPriceWithoutAnswer(cats: seq<Category>, ci: nat, xi: nat, answer: Option<string>)
    requires ci < |cats| && xi < |cats[ci].items| && PromptText(answer) != ""
    requires forall i, j :: 0 <= i < j < |cats| ==> cats[i].id != cats[j].id
    ensures var r := Apply(cats, ItemEdit(ci, xi, answer, None)).categories;
      r[ci].items[xi].price == cats[ci].items[xi].price && r[ci].items[xi].name == PromptText(answer)
  {
  }

  /** An added item comes last in its category; the items before it, and every other category, stay. */
  lemma AddItemAppends(cats: seq<Category>, ci: nat, answer: Option<string>, price: Option<real>)
    requires ci < |cats| && PromptText(answer) != ""
    ensures var r := Apply(cats, NewItem(ci, answer, price)).categories;
      var n := |cats[ci].items|;
      && |r| == |cats| && |r[ci].items| == n + 1
      && r[ci].items[..n] == cats[ci].items
      && r[ci].items[n] == Item(Slug(PromptText(answer)), PromptText(answer), EditedPrice(price, 0.0), "")
      && forall i :: 0 <= i < |cats| && cats[i].id != cats[ci].id ==> r[i] == cats[i]
  {
  }

  // ----- properties of the edits -----

  /** Renaming keeps every category id, and so keeps ids unique. */
  lemma RenameKeepsIds(cats: seq<Category>, id: string, newName: string)
    requires newName != ""
    ensures var r := RenameCategory(cats, id, newName).categories;
      |r| == |cats| && forall i :: 0 <= i < |cats| ==> r[i].id == cats[i].id && r[i].items == cats[i].items
  {
  }

  /** Deleting a category leaves no category with that id and keeps unique ids unique. */
  lemma {:induction false} DeleteCategoryRemoves(cats: seq<Category>, id: string)
    ensures !HasCategory(DeleteCategory(cats, id), id)
    ensures UniqueIds(cats) ==> UniqueIds(DeleteCategory(cats, id))
    decreases |cats|
  {
    var r := DeleteCategory(cats, id);
    assert forall i :: 0 <= i < |r| ==> r[i] in r;
    if cats != [] {
      DeleteCategoryRemoves(cats[1..], id);
      if UniqueIds(cats) {
        var rest := DeleteCategory(cats[1..], id);
        assert UniqueIds(cats[1..]);
        if cats[0].id != id {
          forall j | 0 <= j < |rest| ensures rest[j].id != cats[0].id {
            assert rest[j] in rest;
            var k :| 0 <= k < |cats[1..]| && cats[1..][k] == rest[j];
            assert cats[k + 1] == rest[j];
          }
          assert r == [cats[0]] + rest;
        } else {
          assert r == rest;
        }
      }
    }
  }

  /** Deleting an item removes it from that category only. */
  lemma DeleteItemOnlyThere(cats: seq<Category>, catId: string, itemId: string, i: int)
    requires 0 <= i < |cats|
    ensures var r := DeleteItem(cats, catId, itemId);
      |r| == |cats| &&
      (cats[i].id == catId ==> r[i].id == catId && forall x :: x in r[i].items <==> x in cats[i].items && x.id != itemId) &&
      (cats[i].id != catId ==> r[i] == cats[i])
  {
  }

  /** Adding an item twice under the same name gives two items with the same id. */
  lemma AddItemCanDuplicateIds(name: string, price: Option<real>)
    requires name != ""
    ensures var once := AddItem([Category("c", "C", [])], "c", name, price).categories;
      var twice := AddItem(once, "c", name, price).categories;
      |twice[0].items| == 2 && twice[0].items[0].id == twice[0].items[1].id
  {
    var once := AddItem([Category("c", "C", [])], "c", name, price).categories;
    assert once[0].items == [Item(Slug(name), name, EditedPrice(price, 0.0), "")];
  }
}
