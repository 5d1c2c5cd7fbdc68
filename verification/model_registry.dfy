/** The model registry: the configured language-model integrations and the
    identifier of the active one. Connecting promotes an integration when
    nothing is active; disconnecting the active one re-elects the first other
    connected integration in list order. */
module ModelRegistry {
  import opened Base

  /** One integration. `apiKey` is `None` for the source's `null`. */
  datatype Integration = Integration(
    id: string,
    name: string,
    description: string,
    isConnected: bool,
    apiKey: Option<string>,
    model: string)

  /** The whole registry state: the integration list and the active id. */
  datatype Registry = Registry(integrations: seq<Integration>, active: Option<string>)

  /** The four integrations offered out of the box, all disconnected. */
  const DefaultIntegrations: seq<Integration> := [
    Integration("openrouter", "OpenRouter", "Access a variety of models through a single API.",
      false, None, "openai/gpt-3.5-turbo"),
    Integration("gemini", "Gemini", "Connect to Google's powerful generative AI models.",
      false, None, "google/gemini-pro"),
    Integration("chatgpt", "ChatGPT", "Integrate with OpenAI's state-of-the-art language models.",
      false, None, "openai/gpt-4"),
    Integration("claude", "Claude", "Leverage Anthropic's safety-focused AI assistant.",
      false, None, "anthropic/claude-3-opus")
  ]

  /** The registry at start-up. `storedList` and `storedActive` are the
      parsed storage slots; `None` is an absent slot or a parse failure. */
  function Hydrate(storedList: Option<seq<Integration>>, storedActive: Option<string>): (r: Registry)
    ensures storedList.None? ==> |r.integrations| == 4
    ensures storedList.None? ==> forall i :: 0 <= i < 4 ==>
      !r.integrations[i].isConnected && r.integrations[i].apiKey.None?
    ensures storedList.Some? ==> r.integrations == storedList.value
    ensures r.active == storedActive
  {
    Registry(if storedList.Some? then storedList.value else DefaultIntegrations, storedActive)
  }

  /** JavaScript truthiness of the active id: `null` and `""` are falsy. */
  predicate NoneActive(active: Option<string>) {
    active.None? || active.value == ""
  }

  /** `list.find(int => int.id === id)`: the first integration with that id. */
  function FindById(list: seq<Integration>, id: string): (r: Option<Integration>)
    ensures r.Some? ==> r.value in list && r.value.id == id
    ensures r.None? ==> forall i :: 0 <= i < |list| ==> list[i].id != id
    decreases |list|
  {
    if |list| == 0 then None
    else if list[0].id == id then Some(list[0])
    else FindById(list[1..], id)
  }

  /** The configuration the response engine receives: the integration the
      active id names, if any. */
  function ActiveConfig(reg: Registry): (r: Option<Integration>)
    ensures r.Some? ==> reg.active.Some? && r.value.id == reg.active.value && r.value in reg.integrations
    ensures reg.active.Some? && (exists i :: 0 <= i < |reg.integrations| && reg.integrations[i].id == reg.active.value)
            ==> r.Some?
  {
    match reg.active
    case None => None
    case Some(a) => FindById(reg.integrations, a)
  }

  /** The first connected integration whose id differs from `id`. */
  function FirstOtherConnected(list: seq<Integration>, id: string): (r: Option<Integration>)
    ensures r.Some? ==> r.value in list && r.value.isConnected && r.value.id != id
    ensures r.None? ==> forall i :: 0 <= i < |list| ==> !list[i].isConnected || list[i].id == id
    ensures r.Some? ==>
      exists k :: 0 <= k < |list| && list[k] == r.value &&
        (forall j :: 0 <= j < k ==> !list[j].isConnected || list[j].id == id)
    decreases |list|
  {
    if |list| == 0 then None
    else if list[0].isConnected && list[0].id != id then Some(list[0])
    else
      var r := FirstOtherConnected(list[1..], id);
      if r.Some? then
        var k :| 0 <= k < |list[1..]| && list[1..][k] == r.value &&
          (forall j :: 0 <= j < k ==> !list[1..][j].isConnected || list[1..][j].id == id);
        assert list[k + 1] == r.value;
        r
      else r
  }

  /** Add: the record, given a fresh id, goes at the end. */
  function AddIntegration(reg: Registry, integration: Integration, freshId: string): (r: Registry)
    ensures |r.integrations| == |reg.integrations| + 1
    ensures r.integrations[..|reg.integrations|] == reg.integrations
    ensures r.integrations[|reg.integrations|] == integration.(id := freshId)
    ensures r.active == reg.active
  {
    reg.(integrations := reg.integrations + [integration.(id := freshId)])
  }

  /** Connect: the matching entries become connected with the key; the id is
      made active when nothing is active. */
  function Connect(reg: Registry, id: string, apiKey: string): (r: Registry)
    ensures |r.integrations| == |reg.integrations|
  {
    Registry(
      MapWhere(reg.integrations, (i: Integration) => i.id == id,
        (i: Integration) => i.(isConnected := true, apiKey := Some(apiKey))),
      if NoneActive(reg.active) then Some(id) else reg.active)
  }

  /** Disconnect: the matching entries lose their key and connection; when
      the id was active, the first other connected integration (in the list
      as it was before) becomes active, or none. */
  function Disconnect(reg: Registry, id: string): (r: Registry)
    ensures |r.integrations| == |reg.integrations|
  {
    Registry(
      MapWhere(reg.integrations, (i: Integration) => i.id == id,
        (i: Integration) => i.(isConnected := false, apiKey := None)),
      if reg.active == Some(id) then
        match FirstOtherConnected(reg.integrations, id)
        case Some(next) => Some(next.id)
        case None => None
      else reg.active)
  }

  /** The raw setter the registry also exposes; it checks nothing. */
  function SetActive(reg: Registry, active: Option<string>): (r: Registry)
    ensures r.integrations == reg.integrations && r.active == active
  {
    reg.(active := active)
  }

  /** Identifiers of a list of integrations. */
  function Ids(list: seq<Integration>): set<string> {
    set i | 0 <= i < |list| :: list[i].id
  }

  /** No two integrations share an id. */
  predicate UniqueIds(list: seq<Integration>) {
    forall i, j :: 0 <= i < j < |list| ==> list[i].id != list[j].id
  }

  /** An integration holds a key exactly when it is connected. */
  predicate KeyIffConnected(i: Integration) {
    i.isConnected <==> i.apiKey.Some?
  }

  /** The registry invariant: keys match connection status, ids are unique,
      and the active id is absent or names a connected integration. */
  predicate Valid(reg: Registry) {
    && (forall i :: 0 <= i < |reg.integrations| ==> KeyIffConnected(reg.integrations[i]))
    && UniqueIds(reg.integrations)
    && (reg.active.None? ||
        exists i :: 0 <= i < |reg.integrations| && reg.integrations[i].id == reg.active.value
                    && reg.integrations[i].isConnected)
  }

  /** The default registry satisfies the invariant. */
  lemma DefaultsValid()
    ensures Valid(Hydrate(None, None))
    ensures ActiveConfig(Hydrate(None, None)).None?
  {
    var l := DefaultIntegrations;
    assert l[0].id == "openrouter" && l[1].id == "gemini" && l[2].id == "chatgpt" && l[3].id == "claude";
  }

  /** Under the invariant, the active configuration is connected. */
  lemma ValidActiveConfigConnected(reg: Registry)
    requires Valid(reg)
    requires reg.active.Some?
    ensures ActiveConfig(reg).Some? && ActiveConfig(reg).value.isConnected
    ensures ActiveConfig(reg).value.apiKey.Some?
  {
    var k :| 0 <= k < |reg.integrations| && reg.integrations[k].id == reg.active.value
              && reg.integrations[k].isConnected;
    var c := ActiveConfig(reg);
    var j :| 0 <= j < |reg.integrations| && reg.integrations[j] == c.value;
    assert j == k;
  }

  /** Adding a key-consistent record under a fresh id keeps the invariant. */
  lemma AddPreservesValid(reg: Registry, integration: Integration, freshId: string)
    requires Valid(reg)
    requires KeyIffConnected(integration)
    requires freshId !in Ids(reg.integrations)
    ensures Valid(AddIntegration(reg, integration, freshId))
  {
    var r := AddIntegration(reg, integration, freshId);
    var n := |reg.integrations|;
    forall i, j | 0 <= i < j < |r.integrations| ensures r.integrations[i].id != r.integrations[j].id {
      if j == n {
        assert reg.integrations[i].id in Ids(reg.integrations);
      } else {
        assert r.integrations[i] == reg.integrations[i] && r.integrations[j] == reg.integrations[j];
      }
    }
    if reg.active.Some? {
      var k :| 0 <= k < n && reg.integrations[k].id == reg.active.value && reg.integrations[k].isConnected;
      assert r.integrations[k] == reg.integrations[k];
    }
  }

  /** Connecting a listed integration with a key keeps the invariant. */
  lemma ConnectPreservesValid(reg: Registry, id: string, apiKey: string)
    requires Valid(reg)
    requires id in Ids(reg.integrations)
    ensures Valid(Connect(reg, id, apiKey))
  {
    var r := Connect(reg, id, apiKey);
    var k :| 0 <= k < |reg.integrations| && reg.integrations[k].id == id;
    assert r.integrations[k].isConnected;
    if !NoneActive(reg.active) {
      var a :| 0 <= a < |reg.integrations| && reg.integrations[a].id == reg.active.value
                && reg.integrations[a].isConnected;
      assert r.integrations[a].isConnected && r.integrations[a].id == reg.active.value;
    }
  }

  /** Disconnecting keeps the invariant. */
  lemma DisconnectPreservesValid(reg: Registry, id: string)
    requires Valid(reg)
    ensures Valid(Disconnect(reg, id))
  {
    var r := Disconnect(reg, id);
    if reg.active == Some(id) {
      var next := FirstOtherConnected(reg.integrations, id);
      if next.Some? {
        var k :| 0 <= k < |reg.integrations| && reg.integrations[k] == next.value;
        assert r.integrations[k] == next.value;
      }
    } else if reg.active.Some? {
      var a :| 0 <= a < |reg.integrations| && reg.integrations[a].id == reg.active.value
                && reg.integrations[a].isConnected;
      assert r.integrations[a] == reg.integrations[a];
    }
  }

  /** The raw setter can break the invariant: activating a default
      integration that was never connected is accepted. */
  lemma SetActiveCanBreakValid()
    ensures Valid(Hydrate(None, None))
    ensures !Valid(SetActive(Hydrate(None, None), Some("openrouter")))
  {
    DefaultsValid();
    var r := SetActive(Hydrate(None, None), Some("openrouter"));
    assert forall i :: 0 <= i < |r.integrations| ==> !r.integrations[i].isConnected;
  }

  /** Connect touches only the matching entries, and on those sets exactly
      the connection flag and the key; it activates the id exactly when
      nothing was active. */
  lemma ConnectEffect(reg: Registry, id: string, apiKey: string)
    ensures var r := Connect(reg, id, apiKey);
      && (forall i :: 0 <= i < |reg.integrations| && reg.integrations[i].id != id ==>
            r.integrations[i] == reg.integrations[i])
      && (forall i :: 0 <= i < |reg.integrations| && reg.integrations[i].id == id ==>
            r.integrations[i] == reg.integrations[i].(isConnected := true, apiKey := Some(apiKey)))
      && (NoneActive(reg.active) ==> r.active == Some(id))
      && (!NoneActive(reg.active) ==> r.active == reg.active)
  {
  }

  /** Disconnect touches only the matching entries, clearing flag and key;
      the active id changes only when it was the disconnected one, and then
      to the first other connected integration, or none. */
  lemma DisconnectEffect(reg: Registry, id: string)
    ensures var r := Disconnect(reg, id);
      && (forall i :: 0 <= i < |reg.integrations| && reg.integrations[i].id != id ==>
            r.integrations[i] == reg.integrations[i])
      && (forall i :: 0 <= i < |reg.integrations| && reg.integrations[i].id == id ==>
            r.integrations[i] == reg.integrations[i].(isConnected := false, apiKey := None))
      && (reg.active != Some(id) ==> r.active == reg.active)
      && (reg.active == Some(id) ==>
            ((exists k :: 0 <= k < |reg.integrations| && reg.integrations[k].isConnected
                          && reg.integrations[k].id != id
                          && r.active == Some(reg.integrations[k].id)
                          && (forall j :: 0 <= j < k ==> !reg.integrations[j].isConnected || reg.integrations[j].id == id))
             || (r.active.None? && forall j :: 0 <= j < |reg.integrations| ==>
                   !reg.integrations[j].isConnected || reg.integrations[j].id == id)))
  {
  }

  /** Disconnecting an integration that is already disconnected changes
      nothing. */
  lemma DisconnectIdempotent(reg: Registry, id: string)
    requires Valid(reg)
    requires forall i :: 0 <= i < |reg.integrations| && reg.integrations[i].id == id ==>
      !reg.integrations[i].isConnected
    ensures Disconnect(reg, id) == reg
  {
    var r := Disconnect(reg, id);
    assert r.integrations == reg.integrations;
  }

  /** Connecting then disconnecting a disconnected integration, while some
      other integration is active, restores the registry. */
  lemma ConnectDisconnectRoundTrip(reg: Registry, id: string, apiKey: string)
    requires Valid(reg)
    requires !NoneActive(reg.active)
    requires forall i :: 0 <= i < |reg.integrations| && reg.integrations[i].id == id ==>
      !reg.integrations[i].isConnected
    ensures Disconnect(Connect(reg, id, apiKey), id) == reg
  {
    var c := Connect(reg, id, apiKey);
    var r := Disconnect(c, id);
    assert reg.active != Some(id);
    assert r.integrations == reg.integrations;
  }

  /** The hand-over scenario: connecting A with nothing active activates A;
      connecting B afterwards leaves A active; disconnecting A then elects B,
      the only other connected integration. */
  lemma HandOverScenario(reg: Registry, a: string, b: string, keyA: string, keyB: string)
    requires Valid(reg)
    requires reg.active.None?
    requires a != b && a != "" && a in Ids(reg.integrations) && b in Ids(reg.integrations)
    requires forall i :: 0 <= i < |reg.integrations| ==> !reg.integrations[i].isConnected
    ensures Connect(reg, a, keyA).active == Some(a)
    ensures Connect(Connect(reg, a, keyA), b, keyB).active == Some(a)
    ensures Disconnect(Connect(Connect(reg, a, keyA), b, keyB), a).active == Some(b)
  {
    var r2 := Connect(Connect(reg, a, keyA), b, keyB);
    var kb :| 0 <= kb < |reg.integrations| && reg.integrations[kb].id == b;
    assert r2.integrations[kb].isConnected;
    var next := FirstOtherConnected(r2.integrations, a);
    assert next.Some?;
    var k :| 0 <= k < |r2.integrations| && r2.integrations[k] == next.value;
    assert r2.integrations[k].isConnected;
    assert r2.integrations[k].id == b;
  }
}
