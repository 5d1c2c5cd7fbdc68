/** The integrations screen in front of the model registry: a card per
    integration with a key field and Connect while disconnected, only
    Disconnect while connected, and a dialog for adding a custom
    integration. Both forward to the registry only when their inputs pass. */
module IntegrationsPage {
  import opened Base
  import opened JsText
  import opened ModelRegistry

  /** The controls a card offers. */
  datatype Control = KeyEntry | ConnectButton | DisconnectButton

  /** The add dialog's fields and whether it is open. */
  datatype AddDialog = AddDialog(name: string, description: string, model: string, open: bool)

  /** Outcome notices shown to the operator. */
  datatype Notice = Accepted | KeyRequired | FieldsRequired

  /** A card's controls, decided by the connection flag alone. */
  function CardControls(i: Integration): (r: set<Control>)
    ensures DisconnectButton in r <==> i.isConnected
    ensures KeyEntry in r <==> ConnectButton in r
    ensures (KeyEntry in r) != (DisconnectButton in r)
  {
    if i.isConnected then {DisconnectButton} else {KeyEntry, ConnectButton}
  }

  /** Connect from a card: forwarded, with the key exactly as typed, only
      when the trimmed key is non-empty. */
  function HandleConnect(reg: Registry, card: Integration, keyInput: string): (r: (Registry, Notice))
    ensures IsBlank(keyInput) ==> r == (reg, KeyRequired)
    ensures !IsBlank(keyInput) ==> r == (Connect(reg, card.id, keyInput), Accepted)
  {
    if !IsBlank(keyInput) then (Connect(reg, card.id, keyInput), Accepted) else (reg, KeyRequired)
  }

  /** The record the dialog submits: disconnected, without a key. */
  function DialogRecord(d: AddDialog): (i: Integration)
    ensures !i.isConnected && i.apiKey.None? && KeyIffConnected(i)
    ensures i.name == d.name && i.description == d.description && i.model == d.model
  {
    Integration("", d.name, d.description, false, None, d.model)
  }

  /** Add from the dialog: forwarded only when name, description and model
      are all non-empty; a forwarded add clears the fields and closes the
      dialog. */
  function HandleAdd(reg: Registry, d: AddDialog, freshId: string): (r: (Registry, AddDialog, Notice))
    ensures (d.name == "" || d.description == "" || d.model == "") ==> r == (reg, d, FieldsRequired)
    ensures d.name != "" && d.description != "" && d.model != "" ==>
      && r.0 == AddIntegration(reg, DialogRecord(d), freshId)
      && r.1 == AddDialog("", "", "", false)
      && r.2 == Accepted
  {
    if d.name != "" && d.description != "" && d.model != "" then
      (AddIntegration(reg, DialogRecord(d), freshId), AddDialog("", "", "", false), Accepted)
    else (reg, d, FieldsRequired)
  }

  /** A blank or whitespace-only key never reaches the registry. */
  lemma WhitespaceKeyRejected(reg: Registry, card: Integration, keyInput: string)
    requires forall i :: 0 <= i < |keyInput| ==> IsJsWhitespace(keyInput[i])
    ensures HandleConnect(reg, card, keyInput).0 == reg
  {
    BlankIffAllWhitespace(keyInput);
  }

  /** Every change the page can make keeps the registry invariant: an
      accepted connect on a listed card, a disconnect, and an accepted add
      under a fresh id. */
  lemma PageKeepsRegistryValid(reg: Registry, card: Integration, keyInput: string, d: AddDialog, freshId: string)
    requires Valid(reg)
    requires card.id in Ids(reg.integrations)
    requires freshId !in Ids(reg.integrations)
    ensures Valid(HandleConnect(reg, card, keyInput).0)
    ensures Valid(Disconnect(reg, card.id))
    ensures Valid(HandleAdd(reg, d, freshId).0)
  {
    if !IsBlank(keyInput) {
      ConnectPreservesValid(reg, card.id, keyInput);
    }
    DisconnectPreservesValid(reg, card.id);
    if d.name != "" && d.description != "" && d.model != "" {
      AddPreservesValid(reg, DialogRecord(d), freshId);
    }
  }

  /** After an accepted connect the card offers only Disconnect, and after a
      disconnect it offers the key field and Connect again. */
  lemma CardFollowsConnection(reg: Registry, k: nat, keyInput: string)
    requires k < |reg.integrations|
    requires !IsBlank(keyInput)
    ensures var card := reg.integrations[k];
            var connected := HandleConnect(reg, card, keyInput).0;
            && CardControls(connected.integrations[k]) == {DisconnectButton}
            && CardControls(Disconnect(connected, card.id).integrations[k]) == {KeyEntry, ConnectButton}
  {
  }
}
