/**
 * The earlier `UIHelper` cog: the same tables as the current one, but button
 * ids are taken as given (no retry), the edit handler works on a list of ids
 * and never removes a key, and the `buttons` table is loaded from and saved
 * to "storage/buttons.json" by the cog itself.
 */
module LegacyUiHelper {
  import opened Wrappers
  import opened Json
  import opened Registry
  import Components
  import UiHelper

  const ButtonsPath: string := "storage/buttons.json"

  /** An edit by the bot: `author_id` truthy and equal to the application id. */
  predicate ByBot(payload: UiHelper.EditPayload, applicationId: string) {
    UiHelper.ByBot(payload, applicationId)
  }

  class UIHelper {
    const applicationId: string
    const disk: Disk
    var callbacks: set<string>
    var buttons: map<string, seq<Attached>>
    var pending: map<string, Pending>
    /** Whether `save_buttons_loop` has been started and not stopped. */
    var looping: bool

    constructor (applicationId: string, disk: Disk)
      ensures this.applicationId == applicationId && this.disk == disk
      ensures callbacks == {} && buttons == map[] && pending == map[] && !looping
    {
      this.applicationId := applicationId;
      this.disk := disk;
      callbacks := {};
      buttons := map[];
      pending := map[];
      looping := false;
    }

    /** `register_callback`: a second registration of a name raises `ValueError`. */
    method RegisterCallback(name: string) returns (r: Outcome)
      modifies this`callbacks
      ensures name in old(callbacks) ==> r == Fail("ValueError") && callbacks == old(callbacks)
      ensures name !in old(callbacks) ==> r == Pass && callbacks == old(callbacks) + {name}
    {
      if name in callbacks {
        return Fail("ValueError");
      }
      callbacks := callbacks + {name};
      r := Pass;
    }

    /**
     * `get_button`: record the callback under the id `str(uuid.uuid4())`
     * gave; nothing checks the id, so a repeated id overwrites.
     */
    method GetButton(callbackName: string, callbackArgs: seq<Json>, buttonId: string) returns (customId: string)
      modifies this`pending
      ensures customId == buttonId
      ensures pending == old(pending)[buttonId := Pending(callbackName, callbackArgs)]
    {
      customId := buttonId;
      pending := pending[buttonId := Pending(callbackName, callbackArgs)];
    }

    /**
     * `on_message`: on a message of the bot's own with components, the
     * pending custom buttons of the view move, in view order, from `pending`
     * to the end of the message's list.
     */
    method OnMessage(message: UiHelper.Message)
      modifies this`buttons, this`pending
      ensures message.authorId != applicationId || message.components == [] ==>
                buttons == old(buttons) && pending == old(pending)
      ensures message.authorId == applicationId && message.components != [] ==>
                var p := Promote(Components.ViewButtonIds(message.components), old(pending));
                pending == p.pending && buttons == UiHelper.AttachTo(old(buttons), message.id, p.added)
    {
      if message.authorId != applicationId {
        return;
      }
      if |message.components| == 0 {
        return;
      }
      var items := Components.ViewItems(message.components);
      for i := 0 to |items|
        invariant pending == Promote(Components.CustomIds(items[..i]), old(pending)).pending
        invariant buttons == UiHelper.AttachTo(old(buttons), message.id, Promote(Components.CustomIds(items[..i]), old(pending)).added)
      {
        Components.CustomIdsSnoc(items, i);
        TakeItem(message.id, items[i], Components.CustomIds(items[..i]), old(pending), old(buttons));
      }
      assert items[..|items|] == items;
    }

    /**
     * One item of the view in `on_message`: a custom button whose id is
     * pending moves to the end of the message's list; anything else is
     * skipped. Stated against the promotion of the ids seen so far.
     */
    method TakeItem(messageId: string, c: Components.Component, ghost ids: seq<string>,
                    ghost pending0: map<string, Pending>, ghost buttons0: map<string, seq<Attached>>)
      requires pending == Promote(ids, pending0).pending
      requires buttons == UiHelper.AttachTo(buttons0, messageId, Promote(ids, pending0).added)
      modifies this`buttons, this`pending
      ensures var next := ids + (if Components.IsCustomButton(c) then [c.customId.value] else []);
              pending == Promote(next, pending0).pending &&
              buttons == UiHelper.AttachTo(buttons0, messageId, Promote(next, pending0).added)
    {
      if c.kind == Components.Button && c.customId.Some? && c.customId.value != "" {
        var id := c.customId.value;
        PromoteSnoc(ids, id, pending0);
        if id in pending {
          var entry := Attached(id, pending[id].callbackName, pending[id].args);
          UiHelper.AttachToTwice(buttons0, messageId, Promote(ids, pending0).added, [entry]);
          buttons := buttons[messageId := (if messageId in buttons then buttons[messageId] else []) + [entry]];
          pending := pending - {id};
        }
      } else {
        assert ids + [] == ids;
      }
    }

    /** `on_raw_message_delete`: pop the message's key. */
    method OnRawMessageDelete(messageId: string)
      modifies this`buttons
      ensures buttons == old(buttons) - {messageId}
    {
      buttons := buttons - {messageId};
    }

    /** `on_raw_bulk_message_delete`: pop each given key. */
    method OnRawBulkMessageDelete(messageIds: set<string>)
      modifies this`buttons
      ensures buttons == old(buttons) - messageIds
    {
      var todo := messageIds;
      while todo != {}
        invariant todo <= messageIds
        invariant buttons == old(buttons) - (messageIds - todo)
        decreases todo
      {
        var m :| m in todo;
        buttons := buttons - {m};
        todo := todo - {m};
      }
    }

    /** `find_button_ids`: the type-2 `custom_id`s in depth-first order, duplicates kept. */
    method FindButtonIds(components: seq<Components.Component>) returns (result: seq<string>)
      ensures result == Components.ButtonIds(components)
      decreases components
    {
      result := [];
      for i := 0 to |components|
        invariant result == Components.ButtonIds(components[..i])
      {
        var c := components[i];
        Components.ButtonIdsSnoc(components, i);
        if c.kind == Components.ActionRow {
          var inner := FindButtonIds(c.children);
          result := result + inner;
        } else if c.kind == Components.Button {
          if c.customId.Some? {
            result := result + [c.customId.value];
          }
        }
      }
      assert components[..|components|] == components;
    }

    /**
     * The second loop of `on_raw_message_edit`: walk the id list in order
     * and move each id that is pending to the end of the message's list.
     */
    method AddPending(m: string, ids: seq<string>)
      requires m in buttons
      modifies this`buttons, this`pending
      ensures pending == Promote(ids, old(pending)).pending
      ensures buttons == old(buttons)[m := old(buttons)[m] + Promote(ids, old(pending)).added]
    {
      assert old(buttons)[m] + [] == old(buttons)[m];
      for i := 0 to |ids|
        invariant pending == Promote(ids[..i], old(pending)).pending
        invariant buttons == old(buttons)[m := old(buttons)[m] + Promote(ids[..i], old(pending)).added]
      {
        var id := ids[i];
        assert ids[..i + 1] == ids[..i] + [id];
        PromoteSnoc(ids[..i], id, old(pending));
        if id in pending {
          var entry := Attached(id, pending[id].callbackName, pending[id].args);
          assert old(buttons)[m] + Promote(ids[..i + 1], old(pending)).added ==
                 (old(buttons)[m] + Promote(ids[..i], old(pending)).added) + [entry];
          buttons := buttons[m := buttons[m] + [entry]];
          pending := pending - {id};
        }
      }
      assert ids[..|ids|] == ids;
    }

    /**
     * `on_raw_message_edit`: on an edit by the bot, the message keeps every
     * old entry whose id is in the new list, then gains the listed ids that
     * are pending, in list order. The key stays even when the list is empty,
     * and is created empty for a message that had none.
     */
    method OnRawMessageEdit(payload: UiHelper.EditPayload)
      modifies this`buttons, this`pending
      ensures !ByBot(payload, applicationId) ==> buttons == old(buttons) && pending == old(pending)
      ensures ByBot(payload, applicationId) ==>
                var m := payload.messageId;
                var ids := Components.ButtonIds(payload.components);
                var p := Promote(ids, old(pending));
                && pending == p.pending
                && buttons == old(buttons)[m := Retain(if m in old(buttons) then old(buttons)[m] else [], ids) + p.added]
    {
      if payload.authorId.None? || payload.authorId.value == "" {
        return;
      }
      if payload.authorId.value != applicationId {
        return;
      }
      var buttonIds := FindButtonIds(payload.components);
      var m := payload.messageId;
      if m !in buttons {
        buttons := buttons[m := []];
      }
      buttons := buttons[m := Retain(buttons[m], buttonIds)];
      AddPending(m, buttonIds);
    }

    /** `on_interaction`: the first entry whose id is the interaction's `custom_id` fires. */
    method OnInteraction(interaction: Interaction) returns (d: Dispatch)
      ensures d == Route(interaction, applicationId, buttons, callbacks)
    {
      if interaction.user.None? || interaction.user.value {
        return Ignored;
      }
      if !interaction.isComponent {
        return Ignored;
      }
      if interaction.message.None? {
        return Ignored;
      }
      if interaction.message.value.authorId != applicationId {
        return Ignored;
      }
      if interaction.message.value.id !in buttons {
        return Ignored;
      }
      var entries := buttons[interaction.message.value.id];
      var i := 0;
      while i < |entries|
        invariant 0 <= i <= |entries|
        invariant forall j :: 0 <= j < i ==> interaction.customId != Some(entries[j].buttonId)
      {
        if interaction.customId.Some? && entries[i].buttonId == interaction.customId.value {
          if entries[i].callbackName !in callbacks {
            return MissingCallback(entries[i].callbackName);
          }
          return Invoke(entries[i].callbackName, entries[i].args);
        }
        i := i + 1;
      }
      d := Ignored;
    }

    /** The loop of `on_connect`: every list filtered by `check_callback_exists`, every key kept. */
    method DropUnregistered()
      modifies this`buttons
      ensures buttons == FilterRegistered(old(buttons), callbacks)
    {
      var todo := buttons.Keys;
      while todo != {}
        invariant todo <= buttons.Keys && buttons.Keys == old(buttons).Keys
        invariant forall m :: m in buttons && m !in todo ==> buttons[m] == KeepRegistered(old(buttons)[m], callbacks)
        invariant forall m :: m in todo ==> buttons[m] == old(buttons)[m]
        decreases todo
      {
        var m :| m in todo;
        buttons := buttons[m := KeepRegistered(buttons[m], callbacks)];
        todo := todo - {m};
      }
    }

    /**
     * `on_connect`: read "storage/buttons.json", creating it as `{}` when it
     * is missing or empty; replace the table with what it holds minus the
     * entries of unregistered callbacks; start the save loop (which raises
     * when it is already running, after the table has been replaced).
     * A file that does not decode to a table fails before anything changes.
     */
    method OnConnect() returns (r: Outcome)
      modifies disk, this`buttons, this`looping
      ensures var stored := if ButtonsPath !in old(disk.files) || old(disk.files)[ButtonsPath] == Empty
                            then Some(JObj(map[])) else Loads(old(disk.files)[ButtonsPath]);
              var table := if stored.Some? then DecodeButtons(stored.value) else None;
              && (table.None? ==> r.Fail? && buttons == old(buttons) && looping == old(looping) && disk.files == old(disk.files))
              && (table.Some? ==> buttons == FilterRegistered(table.value, callbacks) && looping
                                  && r == (if old(looping) then Fail("RuntimeError") else Pass))
      ensures ButtonsPath !in old(disk.files) || old(disk.files)[ButtonsPath] == Empty ==>
                disk.files == old(disk.files)[ButtonsPath := Dumps(JObj(map[]))]
      ensures ButtonsPath in old(disk.files) && old(disk.files)[ButtonsPath] != Empty ==>
                disk.files == old(disk.files)
    {
      var data: Json;
      if ButtonsPath !in disk.files || disk.files[ButtonsPath] == Empty {
        disk.files := disk.files[ButtonsPath := Dumps(JObj(map[]))];
        data := JObj(map[]);
      } else {
        var loaded := Loads(disk.files[ButtonsPath]);
        if loaded.None? {
          return Fail("JSONDecodeError");
        }
        data := loaded.value;
      }
      var table := DecodeButtons(data);
      if table.None? {
        return Fail("malformed buttons table");
      }
      buttons := table.value;
      DropUnregistered();
      if looping {
        return Fail("RuntimeError");
      }
      looping := true;
      r := Pass;
    }

    /** `save_buttons`: overwrite "storage/buttons.json" with the table. */
    method SaveButtons()
      modifies disk
      ensures disk.files == old(disk.files)[ButtonsPath := Dumps(EncodeButtons(buttons))]
    {
      disk.files := disk.files[ButtonsPath := Dumps(EncodeButtons(buttons))];
    }

    /**
     * `cog_unload` stops the loop; the stopped loop's `after_loop`
     * (`save_buttons_on_shutdown`) saves once more.
     */
    method CogUnload()
      modifies this`looping, disk
      ensures !looping
      ensures old(looping) ==> disk.files == old(disk.files)[ButtonsPath := Dumps(EncodeButtons(buttons))]
      ensures !old(looping) ==> disk.files == old(disk.files)
    {
      if looping {
        looping := false;
        SaveButtons();
      }
    }
  }

  /** A save followed by a reconnect reads the table back exactly as it was saved. */
  lemma SaveThenLoad(files: map<string, Blob>, buttons: map<string, seq<Attached>>)
    ensures var saved := files[ButtonsPath := Dumps(EncodeButtons(buttons))];
            saved[ButtonsPath] != Empty &&
            Loads(saved[ButtonsPath]).Some? &&
            DecodeButtons(Loads(saved[ButtonsPath]).value) == Some(buttons)
  {
    ButtonsRoundTrip(buttons);
  }
}
