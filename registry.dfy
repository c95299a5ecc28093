/**
 * The two tables of the button-callback registry and the pure steps both
 * versions of `UIHelper` take on them: attaching pending ids to a message,
 * reconciling an edited message, keeping only registered callbacks, and
 * routing an interaction to the first matching button. Also the JSON form
 * the older helper stores the `buttons` table in.
 */
module Registry {
  import opened Wrappers
  import opened Json

  /** An entry of `buttons[message_id]`: (button id, callback name, callback args). */
  datatype Attached = Attached(buttonId: string, callbackName: string, args: seq<Json>)

  /** An entry of `pending[button_id]`: (callback name, callback args). */
  datatype Pending = Pending(callbackName: string, args: seq<Json>)

  /** The button ids of a list of entries, in order. */
  function IdsOf(entries: seq<Attached>): (ids: seq<string>)
    ensures |ids| == |entries|
    ensures forall i :: 0 <= i < |entries| ==> ids[i] == entries[i].buttonId
  {
    if entries == [] then [] else [entries[0].buttonId] + IdsOf(entries[1..])
  }

  /** `a` is `b` with some entries left out, the rest in their order. */
  predicate Subsequence<T(==)>(a: seq<T>, b: seq<T>)
    decreases |b|
  {
    if a == [] then true
    else if b == [] then false
    else if a[0] == b[0] then Subsequence(a[1..], b[1..])
    else Subsequence(a, b[1..])
  }

  lemma {:induction false} SubsequenceMembers<T>(a: seq<T>, b: seq<T>)
    requires Subsequence(a, b)
    ensures forall x :: x in a ==> x in b
    decreases |b|
  {
    if a != [] && b != [] {
      if a[0] == b[0] {
        SubsequenceMembers(a[1..], b[1..]);
        forall x | x in a ensures x in b {
          if x != a[0] {
            assert x in a[1..];
          }
        }
      } else {
        SubsequenceMembers(a, b[1..]);
      }
    }
  }

  // ---------------------------------------------------------------------
  // Attaching pending ids
  // ---------------------------------------------------------------------

  datatype Promotion = Promotion(added: seq<Attached>, pending: map<string, Pending>)

  /**
   * Walk the ids in order: an id still in `pending` is appended with its
   * callback name and args and removed from `pending`; any other id (never
   * registered, or already moved by an earlier occurrence) is skipped.
   */
  function Promote(ids: seq<string>, pending: map<string, Pending>): Promotion
    decreases |ids|
  {
    if ids == [] then Promotion([], pending)
    else if ids[0] in pending then
      var rest := Promote(ids[1..], pending - {ids[0]});
      Promotion([Attached(ids[0], pending[ids[0]].callbackName, pending[ids[0]].args)] + rest.added, rest.pending)
    else Promote(ids[1..], pending)
  }

  /** Every attached entry was named in `ids` and comes from `pending` with its own callback name and args. */
  lemma {:induction false} PromoteOrigin(ids: seq<string>, pending: map<string, Pending>)
    ensures forall a :: a in Promote(ids, pending).added ==>
              a.buttonId in ids && a.buttonId in pending && pending[a.buttonId] == Pending(a.callbackName, a.args)
    decreases |ids|
  {
    if ids != [] {
      var x := ids[0];
      if x in pending {
        PromoteOrigin(ids[1..], pending - {x});
      } else {
        PromoteOrigin(ids[1..], pending);
      }
    }
  }

  /** The attached ids are exactly the named ids that were pending, each attached once. */
  lemma {:induction false} PromoteIds(ids: seq<string>, pending: map<string, Pending>)
    ensures Elems(IdsOf(Promote(ids, pending).added)) == Elems(ids) * pending.Keys
    ensures Distinct(IdsOf(Promote(ids, pending).added))
    decreases |ids|
  {
    if ids != [] {
      var x := ids[0];
      assert Elems(ids) == {x} + Elems(ids[1..]) by {
        assert ids == [x] + ids[1..];
      }
      if x in pending {
        var smaller := pending - {x};
        PromoteIds(ids[1..], smaller);
        var rest := Promote(ids[1..], smaller);
        var head := Attached(x, pending[x].callbackName, pending[x].args);
        assert Promote(ids, pending).added == [head] + rest.added;
        assert IdsOf([head] + rest.added) == [x] + IdsOf(rest.added);
        assert Elems([x] + IdsOf(rest.added)) == {x} + Elems(IdsOf(rest.added));
        assert smaller.Keys == pending.Keys - {x};
        assert x !in Elems(IdsOf(rest.added));
      } else {
        PromoteIds(ids[1..], pending);
      }
    }
  }

  /** `pending` loses exactly the attached ids. */
  lemma {:induction false} PromotePending(ids: seq<string>, pending: map<string, Pending>)
    ensures Promote(ids, pending).pending == pending - Elems(IdsOf(Promote(ids, pending).added))
    decreases |ids|
  {
    if ids != [] {
      var x := ids[0];
      if x in pending {
        var smaller := pending - {x};
        PromotePending(ids[1..], smaller);
        var rest := Promote(ids[1..], smaller);
        var head := Attached(x, pending[x].callbackName, pending[x].args);
        assert IdsOf([head] + rest.added) == [x] + IdsOf(rest.added);
        assert Elems([x] + IdsOf(rest.added)) == {x} + Elems(IdsOf(rest.added));
      } else {
        PromotePending(ids[1..], pending);
      }
    }
  }

  /** Promoting `a + b` is promoting `a`, then `b` against what is still pending. */
  lemma {:induction false} PromoteAppend(a: seq<string>, b: seq<string>, pending: map<string, Pending>)
    ensures Promote(a + b, pending).added ==
              Promote(a, pending).added + Promote(b, Promote(a, pending).pending).added
    ensures Promote(a + b, pending).pending == Promote(b, Promote(a, pending).pending).pending
    decreases |a|
  {
    if a == [] {
      assert a + b == b;
    } else {
      assert (a + b)[0] == a[0];
      assert (a + b)[1..] == a[1..] + b;
      if a[0] in pending {
        PromoteAppend(a[1..], b, pending - {a[0]});
      } else {
        PromoteAppend(a[1..], b, pending);
      }
    }
  }

  /** One more id: attached when it is still pending, skipped otherwise. */
  lemma PromoteSnoc(ids: seq<string>, x: string, pending: map<string, Pending>)
    ensures var p := Promote(ids, pending);
            Promote(ids + [x], pending) ==
              if x in p.pending then Promotion(p.added + [Attached(x, p.pending[x].callbackName, p.pending[x].args)], p.pending - {x})
              else p
  {
    PromoteAppend(ids, [x], pending);
    var p := Promote(ids, pending);
    assert [x][1..] == [];
  }

  // ---------------------------------------------------------------------
  // Reconciling an edited message
  // ---------------------------------------------------------------------

  datatype Filtered = Filtered(kept: seq<Attached>, remaining: set<string>)

  /**
   * The current helper's `filter_button_id`: keep an entry when its id is
   * still in the set, and discard the id as it is kept, so an id survives
   * at most once; `remaining` is what is left of the set afterwards.
   */
  function Survivors(entries: seq<Attached>, ids: set<string>): Filtered
    decreases |entries|
  {
    if entries == [] then Filtered([], ids)
    else if entries[0].buttonId in ids then
      var rest := Survivors(entries[1..], ids - {entries[0].buttonId});
      Filtered([entries[0]] + rest.kept, rest.remaining)
    else Survivors(entries[1..], ids)
  }

  /** The survivors are old entries in their old order. */
  lemma {:induction false} SurvivorsInOrder(entries: seq<Attached>, ids: set<string>)
    ensures Subsequence(Survivors(entries, ids).kept, entries)
    decreases |entries|
  {
    if entries != [] {
      var e := entries[0];
      if e.buttonId in ids {
        SurvivorsInOrder(entries[1..], ids - {e.buttonId});
        var rest := Survivors(entries[1..], ids - {e.buttonId});
        assert ([e] + rest.kept)[1..] == rest.kept;
      } else {
        SurvivorsInOrder(entries[1..], ids);
        var rest := Survivors(entries[1..], ids);
        if rest.kept != [] {
          SurvivorsTake(entries[1..], ids);
          assert rest.kept[0] != e by {
            assert IdsOf(rest.kept)[0] in Elems(IdsOf(rest.kept));
          }
        }
      }
    }
  }

  /**
   * The survivors' ids are exactly the new ids some old entry carried, and
   * what is left of the set is the new ids no survivor took.
   */
  lemma {:induction false} SurvivorsTake(entries: seq<Attached>, ids: set<string>)
    ensures Elems(IdsOf(Survivors(entries, ids).kept)) == ids * Elems(IdsOf(entries))
    ensures Survivors(entries, ids).remaining == ids - Elems(IdsOf(Survivors(entries, ids).kept))
    decreases |entries|
  {
    if entries != [] {
      var e := entries[0];
      assert IdsOf(entries) == [e.buttonId] + IdsOf(entries[1..]);
      assert Elems(IdsOf(entries)) == {e.buttonId} + Elems(IdsOf(entries[1..]));
      if e.buttonId in ids {
        SurvivorsTake(entries[1..], ids - {e.buttonId});
        var rest := Survivors(entries[1..], ids - {e.buttonId});
        assert IdsOf([e] + rest.kept) == [e.buttonId] + IdsOf(rest.kept);
        assert Elems([e.buttonId] + IdsOf(rest.kept)) == {e.buttonId} + Elems(IdsOf(rest.kept));
      } else {
        SurvivorsTake(entries[1..], ids);
      }
    }
  }

  /** An id survives at most once. */
  lemma {:induction false} SurvivorsDistinct(entries: seq<Attached>, ids: set<string>)
    ensures Distinct(IdsOf(Survivors(entries, ids).kept))
    decreases |entries|
  {
    if entries != [] {
      var e := entries[0];
      if e.buttonId in ids {
        SurvivorsDistinct(entries[1..], ids - {e.buttonId});
        SurvivorsTake(entries[1..], ids - {e.buttonId});
        var rest := Survivors(entries[1..], ids - {e.buttonId});
        assert IdsOf([e] + rest.kept) == [e.buttonId] + IdsOf(rest.kept);
        assert e.buttonId !in Elems(IdsOf(rest.kept));
      } else {
        SurvivorsDistinct(entries[1..], ids);
      }
    }
  }

  /** The older helper's filter: keep every entry whose id is in the new list. */
  function Retain(entries: seq<Attached>, ids: seq<string>): (r: seq<Attached>)
    ensures forall a :: a in r <==> a in entries && a.buttonId in ids
  {
    if entries == [] then []
    else if entries[0].buttonId in ids then [entries[0]] + Retain(entries[1..], ids)
    else Retain(entries[1..], ids)
  }

  /** The older filter keeps the old order. */
  lemma {:induction false} RetainInOrder(entries: seq<Attached>, ids: seq<string>)
    ensures Subsequence(Retain(entries, ids), entries)
    decreases |entries|
  {
    if entries != [] {
      RetainInOrder(entries[1..], ids);
      var rest := Retain(entries[1..], ids);
      if entries[0].buttonId !in ids && rest != [] {
        assert rest[0] in entries[1..];
        assert rest[0] != entries[0];
      }
      if entries[0].buttonId in ids {
        assert ([entries[0]] + rest)[1..] == rest;
      }
    }
  }

  // ---------------------------------------------------------------------
  // Loading: dropping entries whose callback is not registered
  // ---------------------------------------------------------------------

  /** `filter(check_callback_exists, entries)`. */
  function KeepRegistered(entries: seq<Attached>, callbacks: set<string>): (r: seq<Attached>)
    ensures forall a :: a in r <==> a in entries && a.callbackName in callbacks
    ensures |r| <= |entries|
  {
    if entries == [] then []
    else if entries[0].callbackName in callbacks then [entries[0]] + KeepRegistered(entries[1..], callbacks)
    else KeepRegistered(entries[1..], callbacks)
  }

  /** Every attached button names a registered callback. */
  predicate AllRegistered(buttons: map<string, seq<Attached>>, callbacks: set<string>) {
    forall m, a :: m in buttons && a in buttons[m] ==> a.callbackName in callbacks
  }

  /** The loop of `on_connect`: filter every list, keep every key. */
  function FilterRegistered(buttons: map<string, seq<Attached>>, callbacks: set<string>): (r: map<string, seq<Attached>>)
    ensures r.Keys == buttons.Keys
    ensures AllRegistered(r, callbacks)
    ensures forall m :: m in r ==> forall a :: a in r[m] <==> a in buttons[m] && a.callbackName in callbacks
  {
    map m | m in buttons :: KeepRegistered(buttons[m], callbacks)
  }

  /** Filtering a second time changes nothing. */
  lemma FilterRegisteredIdempotent(buttons: map<string, seq<Attached>>, callbacks: set<string>)
    ensures FilterRegistered(FilterRegistered(buttons, callbacks), callbacks) == FilterRegistered(buttons, callbacks)
  {
    forall m | m in buttons
      ensures KeepRegistered(KeepRegistered(buttons[m], callbacks), callbacks) == KeepRegistered(buttons[m], callbacks)
    {
      KeepRegisteredKeepsAll(KeepRegistered(buttons[m], callbacks), callbacks);
    }
  }

  lemma {:induction false} KeepRegisteredKeepsAll(entries: seq<Attached>, callbacks: set<string>)
    requires forall a :: a in entries ==> a.callbackName in callbacks
    ensures KeepRegistered(entries, callbacks) == entries
    decreases |entries|
  {
    if entries != [] {
      assert entries[0] in entries;
      forall a | a in entries[1..] ensures a.callbackName in callbacks {
        assert a in entries;
      }
      KeepRegisteredKeepsAll(entries[1..], callbacks);
    }
  }

  // ---------------------------------------------------------------------
  // Routing an interaction
  // ---------------------------------------------------------------------

  /** The message an interaction came from: its id and its author's id. */
  datatype MessageRef = MessageRef(id: string, authorId: string)

  /**
   * What `on_interaction` reads: the user (absent, or whether it is a bot),
   * whether the type is `component`, the message, and the `custom_id` of
   * the interaction data (absent when the data is empty or has none).
   */
  datatype Interaction = Interaction(user: Option<bool>, isComponent: bool, message: Option<MessageRef>, customId: Option<string>)

  /**
   * The outcome of an interaction: nothing, a call of the named factory
   * with the stored args, or the `KeyError` of an unregistered name.
   */
  datatype Dispatch = Ignored | Invoke(callbackName: string, args: seq<Json>) | MissingCallback(callbackName: string)

  /** The position of the first entry carrying `id`. */
  function FirstMatch(entries: seq<Attached>, id: string): (r: Option<nat>)
    ensures r.Some? ==> r.value < |entries| && entries[r.value].buttonId == id
    ensures r.Some? ==> forall j :: 0 <= j < r.value ==> entries[j].buttonId != id
    ensures r.None? <==> forall j :: 0 <= j < |entries| ==> entries[j].buttonId != id
    decreases |entries|
  {
    if entries == [] then None
    else if entries[0].buttonId == id then Some(0)
    else match FirstMatch(entries[1..], id)
      case None => None
      case Some(k) => Some(k + 1)
  }

  /** The guards of `on_interaction`: a human user, a component interaction on a message of the bot's own. */
  predicate Routable(i: Interaction, applicationId: string, buttons: map<string, seq<Attached>>) {
    && i.user.Some? && !i.user.value
    && i.isComponent
    && i.message.Some?
    && i.message.value.authorId == applicationId
    && i.message.value.id in buttons
  }

  /** `on_interaction`: at most the first entry whose id equals the interaction's `custom_id` fires. */
  function Route(i: Interaction, applicationId: string, buttons: map<string, seq<Attached>>, callbacks: set<string>): Dispatch {
    if !Routable(i, applicationId, buttons) || i.customId.None? then Ignored
    else
      var entries := buttons[i.message.value.id];
      match FirstMatch(entries, i.customId.value)
      case None => Ignored
      case Some(k) =>
        if entries[k].callbackName in callbacks then Invoke(entries[k].callbackName, entries[k].args)
        else MissingCallback(entries[k].callbackName)
  }

  /**
   * A dispatch happens only through the guards and only for the first
   * entry of the message whose id is the interaction's `custom_id`.
   */
  lemma RouteFiresFirstMatch(i: Interaction, applicationId: string, buttons: map<string, seq<Attached>>, callbacks: set<string>)
    ensures !Route(i, applicationId, buttons, callbacks).Ignored? ==>
              Routable(i, applicationId, buttons) && i.customId.Some? &&
              exists k :: 0 <= k < |buttons[i.message.value.id]| &&
                buttons[i.message.value.id][k].buttonId == i.customId.value &&
                buttons[i.message.value.id][k].callbackName == Route(i, applicationId, buttons, callbacks).callbackName &&
                (forall j :: 0 <= j < k ==> buttons[i.message.value.id][j].buttonId != i.customId.value)
    ensures Route(i, applicationId, buttons, callbacks).Ignored? <==>
              !Routable(i, applicationId, buttons) || i.customId.None? ||
              i.customId.value !in IdsOf(buttons[i.message.value.id])
  {
    if Routable(i, applicationId, buttons) && i.customId.Some? {
      var entries := buttons[i.message.value.id];
      if i.customId.value in IdsOf(entries) {
        var j :| 0 <= j < |entries| && IdsOf(entries)[j] == i.customId.value;
        assert entries[j].buttonId == i.customId.value;
      }
    }
  }

  /** Once every attached button names a registered callback, no interaction raises `KeyError`. */
  lemma RegisteredNeverMissing(i: Interaction, applicationId: string, buttons: map<string, seq<Attached>>, callbacks: set<string>)
    requires AllRegistered(buttons, callbacks)
    ensures !Route(i, applicationId, buttons, callbacks).MissingCallback?
  {
    if Routable(i, applicationId, buttons) && i.customId.Some? {
      var entries := buttons[i.message.value.id];
      match FirstMatch(entries, i.customId.value)
      case None =>
      case Some(k) =>
        assert entries[k] in entries;
    }
  }

  // ---------------------------------------------------------------------
  // The stored form of the `buttons` table
  // ---------------------------------------------------------------------

  /** An entry as `orjson` writes the tuple: `[button_id, callback_name, [args...]]`. */
  function EncodeEntry(a: Attached): Json {
    JArr([JStr(a.buttonId), JStr(a.callbackName), JArr(a.args)])
  }

  function DecodeEntry(v: Json): (r: Option<Attached>)
    ensures r.Some? ==> EncodeEntry(r.value) == v
  {
    if v.JArr? && |v.items| == 3 && v.items[0].JStr? && v.items[1].JStr? && v.items[2].JArr? then
      Some(Attached(v.items[0].s, v.items[1].s, v.items[2].items))
    else None
  }

  function EncodeEntries(entries: seq<Attached>): (items: seq<Json>)
    ensures |items| == |entries|
  {
    if entries == [] then [] else [EncodeEntry(entries[0])] + EncodeEntries(entries[1..])
  }

  function DecodeEntries(items: seq<Json>): Option<seq<Attached>> {
    if items == [] then Some([])
    else match (DecodeEntry(items[0]), DecodeEntries(items[1..]))
      case (Some(a), Some(rest)) => Some([a] + rest)
      case _ => None
  }

  /** The whole table as one JSON object from message id to list of entries. */
  function EncodeButtons(buttons: map<string, seq<Attached>>): Json {
    JObj(map m | m in buttons :: JArr(EncodeEntries(buttons[m])))
  }

  /** Reading the table back; `None` when the stored value has another shape. */
  function DecodeButtons(v: Json): Option<map<string, seq<Attached>>> {
    if v.JObj? && forall m :: m in v.fields ==> v.fields[m].JArr? && DecodeEntries(v.fields[m].items).Some? then
      Some(map m | m in v.fields :: DecodeEntries(v.fields[m].items).value)
    else None
  }

  lemma {:induction false} EntriesRoundTrip(entries: seq<Attached>)
    ensures DecodeEntries(EncodeEntries(entries)) == Some(entries)
    decreases |entries|
  {
    if entries != [] {
      var items := EncodeEntries(entries);
      assert items == [EncodeEntry(entries[0])] + EncodeEntries(entries[1..]);
      assert items[0] == EncodeEntry(entries[0]);
      assert items[1..] == EncodeEntries(entries[1..]);
      assert DecodeEntry(items[0]) == Some(entries[0]);
      EntriesRoundTrip(entries[1..]);
      assert DecodeEntries(items) == Some([entries[0]] + entries[1..]);
      assert [entries[0]] + entries[1..] == entries;
    }
  }

  /** What `save_buttons` writes, `on_connect` reads back unchanged. */
  lemma ButtonsRoundTrip(buttons: map<string, seq<Attached>>)
    ensures DecodeButtons(EncodeButtons(buttons)) == Some(buttons)
  {
    var v := EncodeButtons(buttons);
    forall m | m in v.fields
      ensures v.fields[m].JArr? && DecodeEntries(v.fields[m].items) == Some(buttons[m])
    {
      EntriesRoundTrip(buttons[m]);
    }
    assert (map m | m in v.fields :: DecodeEntries(v.fields[m].items).value) == buttons;
  }
}
