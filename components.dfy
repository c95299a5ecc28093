/**
 * Message components as the gateway sends them: a tree of JSON objects with
 * a `type` (1 = action row, 2 = button), an optional `custom_id` and, for
 * rows, the child `components`. Two readings of the tree are modelled: the
 * raw walk of `find_button_ids` (every type-2 `custom_id`, recursing through
 * rows) and the item list `View.from_message` builds (rows flattened one
 * level, only buttons with a non-empty `custom_id` kept).
 */
module Components {
  import opened Wrappers

  datatype Component = Component(kind: int, customId: Option<string>, children: seq<Component>)

  const ActionRow: int := 1
  const Button: int := 2

  /**
   * `find_button_ids` of the older helper: the `custom_id`s of the type-2
   * components in depth-first order, duplicates kept. Any component of
   * another type, and a button without a `custom_id` (a URL button), adds
   * nothing.
   */
  function ButtonIds(cs: seq<Component>): seq<string>
    decreases cs
  {
    if cs == [] then []
    else
      var own :=
        if cs[0].kind == ActionRow then ButtonIds(cs[0].children)
        else if cs[0].kind == Button && cs[0].customId.Some? then [cs[0].customId.value]
        else [];
      own + ButtonIds(cs[1..])
  }

  /** A declarative reading: `id` is the `custom_id` of some button in the tree, below rows only. */
  predicate HasButton(cs: seq<Component>, id: string)
    decreases cs
  {
    exists i :: 0 <= i < |cs| &&
      ((cs[i].kind == ActionRow && HasButton(cs[i].children, id)) ||
       (cs[i].kind == Button && cs[i].customId == Some(id)))
  }

  /** The walk finds exactly the buttons' ids: nothing more, nothing less. */
  lemma {:induction false} ButtonIdsExactly(cs: seq<Component>, id: string)
    ensures id in ButtonIds(cs) <==> HasButton(cs, id)
    decreases cs
  {
    if cs != [] {
      var c := cs[0];
      var own :=
        if c.kind == ActionRow then ButtonIds(c.children)
        else if c.kind == Button && c.customId.Some? then [c.customId.value]
        else [];
      assert ButtonIds(cs) == own + ButtonIds(cs[1..]);
      ButtonIdsExactly(cs[1..], id);
      if c.kind == ActionRow {
        ButtonIdsExactly(c.children, id);
      }
      if HasButton(cs, id) {
        var i :| 0 <= i < |cs| &&
          ((cs[i].kind == ActionRow && HasButton(cs[i].children, id)) ||
           (cs[i].kind == Button && cs[i].customId == Some(id)));
        if i > 0 {
          assert cs[1..][i - 1] == cs[i];
          assert HasButton(cs[1..], id);
        }
      }
      if id in ButtonIds(cs[1..]) {
        var i :| 0 <= i < |cs[1..]| &&
          ((cs[1..][i].kind == ActionRow && HasButton(cs[1..][i].children, id)) ||
           (cs[1..][i].kind == Button && cs[1..][i].customId == Some(id)));
        assert cs[i + 1] == cs[1..][i];
      }
    }
  }

  /** The walk of a concatenation is the concatenation of the walks. */
  lemma {:induction false} ButtonIdsAppend(a: seq<Component>, b: seq<Component>)
    ensures ButtonIds(a + b) == ButtonIds(a) + ButtonIds(b)
    decreases a
  {
    if a != [] {
      assert (a + b)[0] == a[0];
      assert (a + b)[1..] == a[1..] + b;
      ButtonIdsAppend(a[1..], b);
    } else {
      assert a + b == b;
    }
  }

  /** One more component adds its own walk: a row's children, a button's id, or nothing. */
  lemma ButtonIdsSnoc(cs: seq<Component>, i: nat)
    requires i < |cs|
    ensures ButtonIds(cs[..i + 1]) == ButtonIds(cs[..i]) +
              (if cs[i].kind == ActionRow then ButtonIds(cs[i].children)
               else if cs[i].kind == Button && cs[i].customId.Some? then [cs[i].customId.value] else [])
  {
    assert cs[..i + 1] == cs[..i] + [cs[i]];
    ButtonIdsAppend(cs[..i], [cs[i]]);
  }

  /** The items `View.from_message` builds: each action row is replaced by its children. */
  function ViewItems(cs: seq<Component>): (items: seq<Component>)
    ensures forall c :: c in items ==> c in cs || exists r :: r in cs && r.kind == ActionRow && c in r.children
  {
    if cs == [] then []
    else (if cs[0].kind == ActionRow then cs[0].children else [cs[0]]) + ViewItems(cs[1..])
  }

  /** `isinstance(component, Button)` and a truthy `custom_id`: the items `on_message` looks at. */
  predicate IsCustomButton(c: Component) {
    c.kind == Button && c.customId.Some? && c.customId.value != ""
  }

  /** The ids of the custom buttons among some view items, in order. */
  function CustomIds(items: seq<Component>): (ids: seq<string>)
    ensures |ids| <= |items|
    ensures forall id :: id in ids ==> exists c :: c in items && IsCustomButton(c) && c.customId == Some(id)
  {
    if items == [] then []
    else
      var rest := CustomIds(items[1..]);
      if IsCustomButton(items[0]) then
        assert forall id :: id in rest ==> exists c :: c in items && IsCustomButton(c) && c.customId == Some(id) by {
          forall id | id in rest
            ensures exists c :: c in items && IsCustomButton(c) && c.customId == Some(id)
          {
            var c :| c in items[1..] && IsCustomButton(c) && c.customId == Some(id);
            assert c in items;
          }
        }
        [items[0].customId.value] + rest
      else
        assert forall id :: id in rest ==> exists c :: c in items && IsCustomButton(c) && c.customId == Some(id) by {
          forall id | id in rest
            ensures exists c :: c in items && IsCustomButton(c) && c.customId == Some(id)
          {
            var c :| c in items[1..] && IsCustomButton(c) && c.customId == Some(id);
            assert c in items;
          }
        }
        rest
  }

  lemma {:induction false} CustomIdsAppend(a: seq<Component>, b: seq<Component>)
    ensures CustomIds(a + b) == CustomIds(a) + CustomIds(b)
    decreases a
  {
    if a != [] {
      assert (a + b)[0] == a[0];
      assert (a + b)[1..] == a[1..] + b;
      CustomIdsAppend(a[1..], b);
    } else {
      assert a + b == b;
    }
  }

  /** One more item adds its id exactly when it is a custom button. */
  lemma CustomIdsSnoc(items: seq<Component>, i: nat)
    requires i < |items|
    ensures CustomIds(items[..i + 1]) ==
              CustomIds(items[..i]) + (if IsCustomButton(items[i]) then [items[i].customId.value] else [])
  {
    assert items[..i + 1] == items[..i] + [items[i]];
    CustomIdsAppend(items[..i], [items[i]]);
  }

  /** The ids `on_message` reads from the view of a message. */
  function ViewButtonIds(cs: seq<Component>): seq<string> {
    CustomIds(ViewItems(cs))
  }

  /** The non-empty ids of a list, in order (the ids a truthiness test lets through). */
  function NonEmpty(ids: seq<string>): (r: seq<string>)
    ensures forall id :: id in r <==> id in ids && id != ""
  {
    if ids == [] then []
    else if ids[0] != "" then [ids[0]] + NonEmpty(ids[1..])
    else NonEmpty(ids[1..])
  }

  lemma {:induction false} NonEmptyAppend(a: seq<string>, b: seq<string>)
    ensures NonEmpty(a + b) == NonEmpty(a) + NonEmpty(b)
    decreases a
  {
    if a != [] {
      assert (a + b)[0] == a[0];
      assert (a + b)[1..] == a[1..] + b;
      NonEmptyAppend(a[1..], b);
    } else {
      assert a + b == b;
    }
  }

  /** Rows hold no rows: the shape Discord gives every message. */
  predicate Shallow(cs: seq<Component>) {
    forall i, j :: 0 <= i < |cs| && cs[i].kind == ActionRow && 0 <= j < |cs[i].children| ==>
      cs[i].children[j].kind != ActionRow
  }

  /** On rows that hold no rows, the walk never recurses twice. */
  lemma {:induction false} FlatButtonIds(items: seq<Component>)
    requires forall i :: 0 <= i < |items| ==> items[i].kind != ActionRow
    ensures NonEmpty(ButtonIds(items)) == CustomIds(items)
    decreases items
  {
    if items != [] {
      assert ButtonIds(items) == ButtonIds([items[0]]) + ButtonIds(items[1..]) by {
        ButtonIdsAppend([items[0]], items[1..]);
        assert [items[0]] + items[1..] == items;
      }
      NonEmptyAppend(ButtonIds([items[0]]), ButtonIds(items[1..]));
      FlatButtonIds(items[1..]);
    }
  }

  /**
   * On a message of the shape Discord sends, `on_message` (through the view)
   * and `on_raw_message_edit` (through the walk) see the same buttons in the
   * same order, except that the walk also keeps an empty `custom_id`.
   */
  lemma {:induction false} ViewAgreesWithWalk(cs: seq<Component>)
    requires Shallow(cs)
    ensures ViewButtonIds(cs) == NonEmpty(ButtonIds(cs))
    decreases cs
  {
    if cs != [] {
      var head := if cs[0].kind == ActionRow then cs[0].children else [cs[0]];
      assert ViewItems(cs) == head + ViewItems(cs[1..]);
      CustomIdsAppend(head, ViewItems(cs[1..]));
      assert ButtonIds(cs) == ButtonIds(head) + ButtonIds(cs[1..]) by {
        if cs[0].kind != ActionRow {
          assert ButtonIds([cs[0]]) == (if cs[0].kind == Button && cs[0].customId.Some? then [cs[0].customId.value] else []);
        }
      }
      NonEmptyAppend(ButtonIds(head), ButtonIds(cs[1..]));
      FlatButtonIds(head);
      assert Shallow(cs[1..]) by {
        forall i, j | 0 <= i < |cs[1..]| && cs[1..][i].kind == ActionRow && 0 <= j < |cs[1..][i].children|
          ensures cs[1..][i].children[j].kind != ActionRow
        {
          assert cs[1..][i] == cs[i + 1];
        }
      }
      ViewAgreesWithWalk(cs[1..]);
    }
  }
}
