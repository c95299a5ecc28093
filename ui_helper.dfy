/**
 * The current `UIHelper` cog: registered callback factories, buttons handed
 * out but not yet seen on a message (`pending`), and the buttons attached to
 * each message the bot sent (`buttons`), kept up to date from gateway events.
 */
module UiHelper {
  import opened Wrappers
  import opened Json
  import opened Registry
  import Components
  import Fresh

  /** A message the bot saw created: its id, its author's id and its components. */
  datatype Message = Message(id: string, authorId: string, components: seq<Components.Component>)

  /**
   * The raw payload of an edit: the message id, `data["author"]["id"]` when
   * present, and `data.get("components", [])`.
   */
  datatype EditPayload = EditPayload(messageId: string, authorId: Option<string>, components: seq<Components.Component>)

  /** Append `added` to the list of message `m`, creating the key only when something is added. */
  function AttachTo(buttons: map<string, seq<Attached>>, m: string, added: seq<Attached>): (r: map<string, seq<Attached>>)
    ensures added == [] ==> r == buttons
    ensures added != [] ==> r.Keys == buttons.Keys + {m}
    ensures forall k :: k in buttons && k != m ==> k in r && r[k] == buttons[k]
  {
    if added == [] then buttons
    else buttons[m := (if m in buttons then buttons[m] else []) + added]
  }

  lemma AttachToTwice(buttons: map<string, seq<Attached>>, m: string, x: seq<Attached>, y: seq<Attached>)
    ensures AttachTo(AttachTo(buttons, m, x), m, y) == AttachTo(buttons, m, x + y)
  {
    if x == [] {
      assert x + y == y;
    } else if y == [] {
      assert x + y == x;
    } else {
      var old_ := if m in buttons then buttons[m] else [];
      assert (old_ + x) + y == old_ + (x + y);
    }
  }

  /** Whether an edit payload's author is the bot (`author_id` truthy and equal to the application id). */
  predicate ByBot(payload: EditPayload, applicationId: string) {
    payload.authorId.Some? && payload.authorId.value != "" && payload.authorId.value == applicationId
  }

  class UIHelper {
    const applicationId: string
    var callbacks: set<string>
    var buttons: map<string, seq<Attached>>
    var pending: map<string, Pending>

    /** `buttons` starts as the mapping the JSON cache loaded under "buttons". */
    constructor (applicationId: string, loaded: map<string, seq<Attached>>)
      ensures this.applicationId == applicationId
      ensures callbacks == {} && buttons == loaded && pending == map[]
    {
      this.applicationId := applicationId;
      callbacks := {};
      buttons := loaded;
      pending := map[];
    }

    /** `register_callback`: a name can be registered once; a second time raises `ValueError`. */
    method RegisterCallback(name: string) returns (r: Outcome)
      modifies this`callbacks
      ensures name in old(callbacks) ==> r == Fail("ValueError") && callbacks == old(callbacks)
      ensures name !in old(callbacks) ==> r == Pass && callbacks == old(callbacks) + {name}
    {
      if name in callbacks {
        return Fail("ValueError");
      }
      callbacks := callbacks + {name};
      r := Pass;
    }

    /**
     * `get_button`: draw ids until one is not pending, then record the
     * callback under it. Neither the attached buttons nor the registered
     * callbacks are consulted.
     */
    method GetButton(callbackName: string, callbackArgs: seq<Json>, candidates: seq<string>) returns (buttonId: string)
      requires Fresh.SomeFree(candidates, pending.Keys)
      modifies this`pending
      ensures buttonId == candidates[Fresh.FirstFree(candidates, old(pending).Keys)]
      ensures buttonId !in old(pending)
      ensures pending == old(pending)[buttonId := Pending(callbackName, callbackArgs)]
    {
      var i := 0;
      while candidates[i] in pending
        invariant 0 <= i <= Fresh.FirstFree(candidates, pending.Keys)
        decreases Fresh.FirstFree(candidates, pending.Keys) - i
      {
        i := i + 1;
      }
      buttonId := candidates[i];
      pending := pending[buttonId := Pending(callbackName, callbackArgs)];
    }

    /**
     * `on_message`: on a message of the bot's own with components, every
     * custom button of the view that is pending moves, in view order, from
     * `pending` to the end of the message's list.
     */
    method OnMessage(message: Message)
      modifies this`buttons, this`pending
      ensures message.authorId != applicationId || message.components == [] ==>
                buttons == old(buttons) && pending == old(pending)
      ensures message.authorId == applicationId && message.components != [] ==>
                var p := Promote(Components.ViewButtonIds(message.components), old(pending));
                pending == p.pending && buttons == AttachTo(old(buttons), message.id, p.added)
    {
      if message.authorId != applicationId {
        return;
      }
      if |message.components| == 0 {
        return;
      }
      var items := Components.ViewItems(message.components);
      for i := 0 to |items|
        invariant pending == Promote(Components.CustomIds(items[..i]), old(pending)).pending
        invariant buttons == AttachTo(old(buttons), message.id, Promote(Components.CustomIds(items[..i]), old(pending)).added)
      {
        Components.CustomIdsSnoc(items, i);
        TakeItem(message.id, items[i], Components.CustomIds(items[..i]), old(pending), old(buttons));
      }
      assert items[..|items|] == items;
    }

    /**
     * One item of the view in `on_message`: a custom button whose id is
     * pending moves to the end of the message's list; anything else is
     * skipped. Stated against the promotion of the ids seen so far.
     */
    method TakeItem(messageId: string, c: Components.Component, ghost ids: seq<string>,
                    ghost pending0: map<string, Pending>, ghost buttons0: map<string, seq<Attached>>)
      requires pending == Promote(ids, pending0).pending
      requires buttons == AttachTo(buttons0, messageId, Promote(ids, pending0).added)
      modifies this`buttons, this`pending
      ensures var next := ids + (if Components.IsCustomButton(c) then [c.customId.value] else []);
              pending == Promote(next, pending0).pending &&
              buttons == AttachTo(buttons0, messageId, Promote(next, pending0).added)
    {
      if c.kind == Components.Button && c.customId.Some? && c.customId.value != "" {
        var id := c.customId.value;
        PromoteSnoc(ids, id, pending0);
        if id in pending {
          var entry := Attached(id, pending[id].callbackName, pending[id].args);
          AttachToTwice(buttons0, messageId, Promote(ids, pending0).added, [entry]);
          buttons := buttons[messageId := (if messageId in buttons then buttons[messageId] else []) + [entry]];
          pending := pending - {id};
        }
      } else {
        assert ids + [] == ids;
      }
    }

    /** `on_raw_message_delete`: the message's key goes, every other key stays. */
    method OnRawMessageDelete(messageId: string)
      modifies this`buttons
      ensures buttons == old(buttons) - {messageId}
    {
      buttons := buttons - {messageId};
    }

    /** `on_raw_bulk_message_delete`: exactly the given keys go. */
    method OnRawBulkMessageDelete(messageIds: set<string>)
      modifies this`buttons
      ensures buttons == old(buttons) - messageIds
    {
      var todo := messageIds;
      while todo != {}
        invariant todo <= messageIds
        invariant buttons == old(buttons) - (messageIds - todo)
        decreases todo
      {
        var m :| m in todo;
        buttons := buttons - {m};
        todo := todo - {m};
      }
    }

    /** `find_button_ids`: the set of every type-2 `custom_id` in the tree. */
    method FindButtonIds(components: seq<Components.Component>) returns (result: set<string>)
      ensures result == Elems(Components.ButtonIds(components))
      decreases components
    {
      result := {};
      for i := 0 to |components|
        invariant result == Elems(Components.ButtonIds(components[..i]))
      {
        var c := components[i];
        Components.ButtonIdsSnoc(components, i);
        if c.kind == Components.ActionRow {
          var inner := FindButtonIds(c.children);
          result := result + inner;
        } else if c.kind == Components.Button {
          if c.customId.Some? {
            result := result + {c.customId.value};
          }
        }
      }
      assert components[..|components|] == components;
    }

    /**
     * `filter(filter_button_id, entries)`: keep an entry whose id is still in
     * the set and discard that id from the set as it is kept.
     */
    method FilterButtons(entries: seq<Attached>, ids: set<string>) returns (f: Filtered)
      ensures f == Survivors(entries, ids)
    {
      var kept: seq<Attached> := [];
      var remaining := ids;
      for i := 0 to |entries|
        invariant var rest := Survivors(entries[i..], remaining);
                  Survivors(entries, ids) == Filtered(kept + rest.kept, rest.remaining)
      {
        assert entries[i..][1..] == entries[i + 1..];
        if entries[i].buttonId in remaining {
          var rest := Survivors(entries[i + 1..], remaining - {entries[i].buttonId});
          assert kept + ([entries[i]] + rest.kept) == (kept + [entries[i]]) + rest.kept;
          kept := kept + [entries[i]];
          remaining := remaining - {entries[i].buttonId};
        }
      }
      assert kept + [] == kept;
      f := Filtered(kept, remaining);
    }

    /**
     * The second loop of `on_raw_message_edit`: each id of the set that is
     * pending moves to the end of the message's list, in the order the set
     * yields them (`order`).
     */
    method AddPending(m: string, ids: set<string>) returns (ghost order: seq<string>)
      requires m in buttons
      modifies this`buttons, this`pending
      ensures Elems(order) == ids && Distinct(order)
      ensures pending == Promote(order, old(pending)).pending
      ensures buttons == old(buttons)[m := old(buttons)[m] + Promote(order, old(pending)).added]
    {
      order := [];
      var todo := ids;
      assert old(buttons)[m] + [] == old(buttons)[m];
      while todo != {}
        invariant todo <= ids && Elems(order) == ids - todo && Distinct(order)
        invariant pending == Promote(order, old(pending)).pending
        invariant buttons == old(buttons)[m := old(buttons)[m] + Promote(order, old(pending)).added]
        decreases todo
      {
        var id :| id in todo;
        PromoteSnoc(order, id, old(pending));
        if id in pending {
          var entry := Attached(id, pending[id].callbackName, pending[id].args);
          assert old(buttons)[m] + Promote(order + [id], old(pending)).added ==
                 (old(buttons)[m] + Promote(order, old(pending)).added) + [entry];
          buttons := buttons[m := buttons[m] + [entry]];
          pending := pending - {id};
        }
        assert Elems(order + [id]) == Elems(order) + {id};
        order := order + [id];
        todo := todo - {id};
      }
    }

    /**
     * `on_raw_message_edit`: on an edit by the bot, the message keeps the
     * old entries whose id is still on it, in order and once per id, then
     * gains the new ids that are pending, in the order the set yields them
     * (`order`); an emptied list loses its key.
     */
    method OnRawMessageEdit(payload: EditPayload) returns (ghost order: seq<string>)
      modifies this`buttons, this`pending
      ensures !ByBot(payload, applicationId) ==> buttons == old(buttons) && pending == old(pending)
      ensures ByBot(payload, applicationId) ==>
                var m := payload.messageId;
                var f := Survivors(if m in old(buttons) then old(buttons)[m] else [],
                                   Elems(Components.ButtonIds(payload.components)));
                var p := Promote(order, old(pending));
                && Elems(order) == f.remaining && Distinct(order)
                && pending == p.pending
                && buttons == (if f.kept + p.added == [] then old(buttons) - {m} else old(buttons)[m := f.kept + p.added])
    {
      order := [];
      if payload.authorId.None? || payload.authorId.value == "" {
        return;
      }
      if payload.authorId.value != applicationId {
        return;
      }
      var buttonIds := FindButtonIds(payload.components);
      order := Reconcile(payload.messageId, buttonIds);
    }

    /**
     * The body of `on_raw_message_edit` once the author is the bot: filter
     * the message's list by the ids on it, attach the pending ones, and drop
     * the key of a list left empty.
     */
    method Reconcile(m: string, buttonIds: set<string>) returns (ghost order: seq<string>)
      modifies this`buttons, this`pending
      ensures var f := Survivors(if m in old(buttons) then old(buttons)[m] else [], buttonIds);
              var p := Promote(order, old(pending));
              && Elems(order) == f.remaining && Distinct(order)
              && pending == p.pending
              && buttons == (if f.kept + p.added == [] then old(buttons) - {m} else old(buttons)[m := f.kept + p.added])
    {
      if m !in buttons {
        buttons := buttons[m := []];
      }
      var entries := buttons[m];
      var f := FilterButtons(entries, buttonIds);
      buttons := buttons[m := f.kept];
      order := AddPending(m, f.remaining);
      ghost var added := Promote(order, old(pending)).added;
      assert buttons == old(buttons)[m := f.kept + added];
      if |buttons[m]| == 0 {
        buttons := buttons - {m};
        assert buttons == old(buttons) - {m};
      }
    }

    /**
     * `on_interaction`: walk the message's list and call the factory of the
     * first entry whose id is the interaction's `custom_id`; the state is
     * left as it is.
     */
    method OnInteraction(interaction: Interaction) returns (d: Dispatch)
      ensures d == Route(interaction, applicationId, buttons, callbacks)
    {
      if interaction.user.None? || interaction.user.value {
        return Ignored;
      }
      if !interaction.isComponent {
        return Ignored;
      }
      if interaction.message.None? {
        return Ignored;
      }
      if interaction.message.value.authorId != applicationId {
        return Ignored;
      }
      if interaction.message.value.id !in buttons {
        return Ignored;
      }
      var entries := buttons[interaction.message.value.id];
      var i := 0;
      while i < |entries|
        invariant 0 <= i <= |entries|
        invariant forall j :: 0 <= j < i ==> interaction.customId != Some(entries[j].buttonId)
      {
        if interaction.customId.Some? && entries[i].buttonId == interaction.customId.value {
          if entries[i].callbackName !in callbacks {
            return MissingCallback(entries[i].callbackName);
          }
          return Invoke(entries[i].callbackName, entries[i].args);
        }
        i := i + 1;
      }
      d := Ignored;
    }

    /**
     * `on_connect`: filter every message's list with `check_callback_exists`;
     * every key stays, even one left with an empty list.
     */
    method OnConnect()
      modifies this`buttons
      ensures buttons == FilterRegistered(old(buttons), callbacks)
    {
      var todo := buttons.Keys;
      while todo != {}
        invariant todo <= buttons.Keys && buttons.Keys == old(buttons).Keys
        invariant forall m :: m in buttons && m !in todo ==> buttons[m] == KeepRegistered(old(buttons)[m], callbacks)
        invariant forall m :: m in todo ==> buttons[m] == old(buttons)[m]
        decreases todo
      {
        var m :| m in todo;
        buttons := buttons[m := KeepRegistered(buttons[m], callbacks)];
        todo := todo - {m};
      }
    }
  }
}
