/** The update step of the controller collection, run against a server that masks secrets. */
module Updates {
  import opened Json
  import opened Secrets

  /** Which dictionary paths, starting at a field name, the server never shows. */
  type Policy = seq<string> -> bool

  function Mask(v: Value, at: seq<string>, hidden: Policy): Value {
    if hidden(at) then ENCRYPTED
    else if v.Dict? then Dict(map k | k in v.fields :: Mask(v.fields[k], at + [k], hidden))
    else v
  }

  /** What a read of the item answers: every field, masked. */
  function View(item: Fields, hidden: Policy): Fields {
    map k | k in item :: Mask(item[k], [k], hidden)
  }

  /** One stored item; a PATCH it accepts is merged, every PATCH it receives is logged. */
  class ItemServer {
    var item: Fields
    var patches: seq<Fields>
    const hidden: Policy
    const accepts: Fields -> bool

    constructor (item: Fields, hidden: Policy, accepts: Fields -> bool)
      ensures this.item == item && patches == []
      ensures this.hidden == hidden && this.accepts == accepts
    {
      this.item, patches := item, [];
      this.hidden, this.accepts := hidden, accepts;
    }

    method Read() returns (shown: Fields)
      ensures shown == View(item, hidden)
    {
      shown := View(item, hidden);
    }

    method Patch(payload: Fields) returns (ok: bool, shown: Fields)
      modifies this
      ensures ok == accepts(payload)
      ensures item == if ok then old(item) + payload else old(item)
      ensures patches == old(patches) + [payload]
      ensures shown == View(item, hidden)
    {
      ok := accepts(payload);
      if ok {
        item := item + payload;
      }
      patches := patches + [payload];
      shown := View(item, hidden);
    }
  }

  datatype Ending = Finished | WouldChange | MissingData | NoItem | PatchRefused

  /** The fields compared when no explicit set is given. */
  function Compared(new': Fields): set<string> {
    new'.Keys - UNCOMPARED
  }

  predicate NeedsPatch(updateSecrets: bool, shown: Fields, new': Fields) {
    Different(updateSecrets, shown, new', Compared(new'))
  }

  /** The key that names an item of the given type. */
  function IdentityKey(itemType: string): string {
    match itemType
    case "user" => "username"
    case "workflow_job_template_node" => "identifier"
    case "credential_input_source" => "id"
    case "instance" => "hostname"
    case _ => "name"
  }

  /** The item type handed in, or the item's own; None when neither gives one. */
  function TypeOf(existing: Fields, itemType: string): Option<string> {
    if itemType != "" then Some(itemType)
    else if "type" !in existing then None
    else match existing["type"]
      case Str(s) => Some(s)
      case _ => Some("")
  }

  predicate Complete(existing: Fields, itemType: string) {
    && TypeOf(existing, itemType).Some?
    && {"url", "id", IdentityKey(TypeOf(existing, itemType).value)} <= existing.Keys
  }

  /** A PATCH is needed for a field of the payload that differs, three fields apart that are never compared. */
  lemma NeedsPatchIff(updateSecrets: bool, shown: Fields, new': Fields)
    ensures NeedsPatch(updateSecrets, shown, new') <==>
              exists field | field in new' ::
                && field != "modified" && field != "related" && field != "summary_fields"
                && (Get(shown, field) != new'[field] || HasEncrypted(new'[field]))
                && (updateSecrets || !CouldBeSame(Get(shown, field), new'[field]))
  {
    forall field | field in new' && field != "modified" && field != "related" && field != "summary_fields"
      ensures field in Compared(new')
    {
    }
  }

  /** What an item must have for its type. */
  ghost predicate Identified(existing: Fields, type': string) {
    && "url" in existing && "id" in existing
    && (type' == "user" ==> "username" in existing)
    && (type' == "workflow_job_template_node" ==> "identifier" in existing)
    && (type' == "instance" ==> "hostname" in existing)
    && (type' !in ["user", "workflow_job_template_node", "credential_input_source", "instance"] ==> "name" in existing)
  }

  /** An update goes on exactly with an item that is identified for the type handed in, or for its own. */
  lemma CompleteIff(existing: Fields, itemType: string)
    ensures itemType != "" ==> (Complete(existing, itemType) <==> Identified(existing, itemType))
    ensures itemType == "" ==>
              (Complete(existing, itemType) <==>
                 "type" in existing &&
                 Identified(existing, if existing["type"].Str? then existing["type"].s else ""))
  {
    var type' := TypeOf(existing, itemType);
    if type'.Some? {
      var needed := {"url", "id", IdentityKey(type'.value)};
      assert needed <= existing.Keys <==> "url" in existing && "id" in existing && IdentityKey(type'.value) in existing;
    }
  }

  /** One task: its options and the part of its output the update step writes. */
  class UpdateTask {
    const updateSecrets: bool
    const checkMode: bool
    var changed: bool
    var id: Value

    constructor (updateSecrets: bool, checkMode: bool)
      ensures this.updateSecrets == updateSecrets && this.checkMode == checkMode
      ensures !changed && id == Null
    {
      this.updateSecrets, this.checkMode := updateSecrets, checkMode;
      changed, id := false, Null;
    }

    /**
     Sends the new values when the item shown could differ from them, and reports a change
     when the item shown before and after could differ on the fields sent.
     */
    method UpdateIfNeeded(server: ItemServer, existing: Fields, new': Fields, itemType: string)
      returns (ending: Ending)
      modifies this, server
      ensures ending == NoItem <==> existing == map[]
      ensures ending == MissingData <==> existing != map[] && !Complete(existing, itemType)
      ensures ending in {NoItem, MissingData} ==> unchanged(this) && unchanged(server)
      ensures ending !in {NoItem, MissingData} ==>
                var needed := NeedsPatch(updateSecrets, existing, new');
                && id == existing["id"]
                && (ending == Finished <==> !needed || (!checkMode && server.accepts(new')))
                && (ending == WouldChange <==> needed && checkMode)
                && server.patches == old(server.patches) + (if needed && !checkMode then [new'] else [])
                && server.item == (if needed && ending == Finished then old(server.item) + new' else old(server.item))
                && changed == (old(changed) || ending == WouldChange ||
                               (needed && ending == Finished &&
                                Different(updateSecrets, existing, View(server.item, server.hidden), new'.Keys)))
    {
      if existing == map[] {
        return NoItem;
      }
      var type' := TypeOf(existing, itemType);
      if type' == None || "url" !in existing || IdentityKey(type'.value) !in existing || "id" !in existing {
        return MissingData;
      }
      var needsPatch := ObjectsCouldBeDifferent(updateSecrets, existing, new', Compared(new'));
      id := existing["id"];
      if needsPatch {
        if checkMode {
          changed := true;
          return WouldChange;
        }
        var ok, response := server.Patch(new');
        if !ok {
          return PatchRefused;
        }
        var different := ObjectsCouldBeDifferent(updateSecrets, existing, response, new'.Keys);
        changed := changed || different;
      }
      return Finished;
    }
  }

  // ---------------------------------------------------------------- what two runs do

  lemma {:induction false} MaskedCouldBeSame(v: Value, at: seq<string>, hidden: Policy)
    ensures CouldBeSame(Mask(v, at, hidden), v)
    decreases v
  {
    if !hidden(at) && v.Dict? {
      forall k | k in v.fields ensures CouldBeSame(Mask(v.fields[k], at + [k], hidden), v.fields[k]) {
        MaskedCouldBeSame(v.fields[k], at + [k], hidden);
      }
    }
  }

  /** The state a run without secrets leaves behind, read through the same masking. */
  function AfterRun(updateSecrets: bool, item: Fields, new': Fields, hidden: Policy): Fields {
    if NeedsPatch(updateSecrets, View(item, hidden), new') then item + new' else item
  }

  /** With `update_secrets` off a second run of the same task has nothing to send. */
  lemma SecondRunIsSilent(item: Fields, new': Fields, hidden: Policy)
    ensures !NeedsPatch(false, View(AfterRun(false, item, new', hidden), hidden), new')
  {
    if NeedsPatch(false, View(item, hidden), new') {
      forall field | field in Compared(new')
        ensures !FieldDiffers(false, View(item + new', hidden), new', field)
      {
        MaskedCouldBeSame(new'[field], [field], hidden);
      }
    }
  }

  /**
   With `update_secrets` on, a run after the values were stored is silent exactly when
   nothing it compares is masked or spelled `$encrypted$`.
   */
  lemma SecretsAreSentAgain(item: Fields, new': Fields, hidden: Policy)
    ensures !NeedsPatch(true, View(item + new', hidden), new') <==>
            forall field | field in Compared(new') ::
              Mask(new'[field], [field], hidden) == new'[field] && !HasEncrypted(new'[field])
  {
    assert forall field | field in Compared(new') ::
        Get(View(item + new', hidden), field) == Mask(new'[field], [field], hidden);
  }

  lemma {:induction false} MaskShowsSecret(v: Value, at: seq<string>, hidden: Policy)
    requires Mask(v, at, hidden) != v
    ensures HasEncrypted(Mask(v, at, hidden))
    decreases v
  {
    if !hidden(at) && v.Dict? {
      var k :| k in v.fields && Mask(v.fields[k], at + [k], hidden) != v.fields[k];
      MaskShowsSecret(v.fields[k], at + [k], hidden);
      assert HasEncrypted(Mask(v, at, hidden).fields[k]);
    }
  }

  lemma {:induction false} MaskKeepsDifference(v: Value, w: Value, at: seq<string>, hidden: Policy)
    requires !CouldBeSame(Mask(v, at, hidden), w)
    ensures !CouldBeSame(Mask(v, at, hidden), Mask(w, at, hidden))
    decreases v
  {
    if v.Dict? && w.Dict? && v.fields.Keys == w.fields.Keys {
      var k :| k in v.fields && !CouldBeSame(Mask(v.fields[k], at + [k], hidden), w.fields[k]);
      MaskKeepsDifference(v.fields[k], w.fields[k], at + [k], hidden);
    }
  }

  lemma SentFieldStillDiffers(updateSecrets: bool, before: Fields, new': Fields, after: Fields, field: string,
                              old': Value, hidden: Policy)
    requires FieldDiffers(updateSecrets, before, new', field) && field in new'
    requires Get(before, field) == Null || Get(before, field) == Mask(old', [field], hidden)
    requires field in after && after[field] == Mask(new'[field], [field], hidden)
    ensures FieldDiffers(updateSecrets, before, after, field)
  {
    if updateSecrets {
      if after[field] != new'[field] {
        MaskShowsSecret(new'[field], [field], hidden);
      }
    } else if Get(before, field) != Null {
      MaskKeepsDifference(old', new'[field], [field], hidden);
    }
    if after[field] == Get(before, field) {
      CouldBeSameReflexive(after[field]);
    }
  }

  /** The report is accurate: a run says `changed` whenever it sent its values. */
  lemma SentIsReported(updateSecrets: bool, item: Fields, new': Fields, hidden: Policy)
    requires NeedsPatch(updateSecrets, View(item, hidden), new')
    ensures Different(updateSecrets, View(item, hidden), View(item + new', hidden), new'.Keys)
  {
    var before, after := View(item, hidden), View(item + new', hidden);
    var field :| field in Compared(new') && FieldDiffers(updateSecrets, before, new', field);
    SentFieldStillDiffers(updateSecrets, before, new', after, field, Get(item, field), hidden);
  }

  /** Nothing compared is masked when it is shown, or spelled `$encrypted$`. */
  predicate NothingHidden(new': Fields, hidden: Policy) {
    forall field | field in Compared(new') ::
      Mask(new'[field], [field], hidden) == new'[field] && !HasEncrypted(new'[field])
  }

  lemma SentAgainIff(updateSecrets: bool, item: Fields, new': Fields, hidden: Policy)
    ensures NeedsPatch(updateSecrets, View(AfterRun(updateSecrets, item, new', hidden), hidden), new') <==>
              NeedsPatch(updateSecrets, View(item, hidden), new') && updateSecrets && !NothingHidden(new', hidden)
  {
    if updateSecrets {
      SecretsAreSentAgain(item, new', hidden);
    } else {
      SecondRunIsSilent(item, new', hidden);
    }
  }

  lemma StaysComplete(item: Fields, new': Fields, itemType: string, hidden: Policy)
    requires Complete(View(item, hidden), itemType) && (itemType != "" || "type" !in new')
    ensures Complete(View(item + new', hidden), itemType)
  {
    assert "type" !in new' && "type" in item ==>
        View(item + new', hidden)["type"] == View(item, hidden)["type"];
  }

  /**
   The same task run twice, each run reading the item and updating it. Every run that sends the
   values reports a change. The second sends them again exactly when the first did, secrets are
   updated, and something compared is hidden; with `update_secrets` off it never does.
   */
  method UpdateTwice(server: ItemServer, first: UpdateTask, second: UpdateTask, new': Fields, itemType: string)
    returns (one: Ending, two: Ending)
    requires first != second && first.updateSecrets == second.updateSecrets && !first.checkMode && !second.checkMode
    modifies server, first, second
    ensures one == Finished && (itemType != "" || "type" !in new') ==>
              var needed := NeedsPatch(first.updateSecrets, View(old(server.item), server.hidden), new');
              var again := needed && first.updateSecrets && !NothingHidden(new', server.hidden);
              && two == Finished
              && first.changed == (old(first.changed) || needed) && second.changed == (old(second.changed) || again)
              && server.item == (if needed then old(server.item) + new' else old(server.item))
              && server.patches ==
                 old(server.patches) + (if needed then [new'] else []) + (if again then [new'] else [])
  {
    ghost var item, needed := server.item, NeedsPatch(first.updateSecrets, View(server.item, server.hidden), new');
    var shown := server.Read();
    one := first.UpdateIfNeeded(server, shown, new', itemType);
    SentAgainIff(first.updateSecrets, item, new', server.hidden);
    if needed {
      SentIsReported(first.updateSecrets, item, new', server.hidden);
    }
    ghost var mid := server.item;
    shown := server.Read();
    two := second.UpdateIfNeeded(server, shown, new', itemType);
    if one == Finished && (itemType != "" || "type" !in new') {
      if needed {
        StaysComplete(item, new', itemType, server.hidden);
      }
      if NeedsPatch(second.updateSecrets, View(mid, server.hidden), new') {
        SentIsReported(second.updateSecrets, mid, new', server.hidden);
        assert mid + new' == mid;
      }
    }
  }
}
