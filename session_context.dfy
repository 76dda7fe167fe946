/** The client-side session coordinator (`SessionProvider`): which stored session, if any, the
    active tab is bound to, and the save / save-as / load operations any tab's UI can use.
    Unbound (`currentSessionId == None`): the next save creates a session. Bound: the next save
    overwrites that session's payload. */
module SessionContext {
  import opened Wrappers
  import opened Values
  import opened Strings
  import opened Tables
  import opened Sessions

  class SessionProvider {
    /** The `sessions` table the provider's mutations go to. */
    const store: Table<Session>

    var currentSessionId: Option<Id>
    var currentSessionName: Option<string>
    var currentTabType: Option<string>
    var currentData: Value
    var isSaving: bool
    /** Whether the active tab has registered an `onLoadSessionCallback`. */
    var hasLoadCallback: bool
    /** The last payload handed to the registered callback. */
    var delivered: Option<Value>
    var userEmail: Option<string>

    ghost predicate Valid()
      reads this, store
    {
      store.Valid()
    }

    /** The pointer to the current session: id and name, set together. */
    function Binding(): (Option<Id>, Option<string>)
      reads this
    {
      (currentSessionId, currentSessionName)
    }

    /** What the active tab supplies; no save or load changes it. */
    function Inputs(): (Option<string>, Option<string>, Value, bool)
      reads this
    {
      (userEmail, currentTabType, currentData, hasLoadCallback)
    }

    /** The guard of `saveProgress` and `saveAsNew`: a user, a tab and a truthy payload. */
    predicate CanSave()
      reads this
    {
      Present(userEmail) && Present(currentTabType) && Truthy(currentData)
    }

    constructor (store: Table<Session>)
      requires store.Valid()
      ensures Valid() && this.store == store
      ensures Binding() == (None, None) && Inputs() == (None, None, Null, false)
      ensures !isSaving && delivered == None
    {
      this.store := store;
      currentSessionId := None;
      currentSessionName := None;
      currentTabType := None;
      currentData := Null;
      isSaving := false;
      hasLoadCallback := false;
      delivered := None;
      userEmail := None;
    }

    /** The `sessions` query: the sessions of the current user and tab, newest first, or
        nothing (the query is skipped) while either is missing. */
    function ListedSessions(): (r: Option<seq<Doc<Session>>>)
      reads this, store
      requires Valid()
      ensures r.Some? <==> Present(userEmail) && Present(currentTabType)
      ensures r.Some? ==> forall k :: 0 <= k < |r.value| ==>
        r.value[k].id in store.rows && r.value[k].value.email == userEmail.value
        && r.value[k].value.tabType == currentTabType.value
    {
      if Present(userEmail) && Present(currentTabType) then
        Some(GetSessionsByTab(store, userEmail.value, currentTabType.value))
      else None
    }

    /** `setCurrentSession`: id and name change together. */
    method SetCurrentSession(sessionId: Option<Id>, name: Option<string>)
      modifies this
      ensures Binding() == (sessionId, name)
      ensures Inputs() == old(Inputs()) && isSaving == old(isSaving) && delivered == old(delivered)
    {
      currentSessionId := sessionId;
      currentSessionName := name;
    }

    /** `setCurrentTabType`, called by the tab that becomes active. */
    method SetCurrentTabType(tabType: string)
      modifies this
      ensures Inputs() == (old(userEmail), Some(tabType), old(currentData), old(hasLoadCallback))
      ensures Binding() == old(Binding()) && isSaving == old(isSaving) && delivered == old(delivered)
    {
      currentTabType := Some(tabType);
    }

    /** `setCurrentData`, called whenever the active tab's editable state changes. */
    method SetCurrentData(data: Value)
      modifies this
      ensures Inputs() == (old(userEmail), old(currentTabType), data, old(hasLoadCallback))
      ensures Binding() == old(Binding()) && isSaving == old(isSaving) && delivered == old(delivered)
    {
      currentData := data;
    }

    /** `setUserEmail`. */
    method SetUserEmail(email: Option<string>)
      modifies this
      ensures Inputs() == (email, old(currentTabType), old(currentData), old(hasLoadCallback))
      ensures Binding() == old(Binding()) && isSaving == old(isSaving) && delivered == old(delivered)
    {
      userEmail := email;
    }

    /** `setOnLoadSessionCallback` as written: the callback goes to the state setter bare, and
        a function given to a state setter is taken as an updater. It is called once with the
        previous state and its result, `undefined` for a `(data) => void` callback, is what gets
        stored. Registering and clearing therefore both leave no callback. */
    method SetOnLoadSessionCallbackAsWritten(present: bool)
      modifies this
      ensures !hasLoadCallback
      ensures Inputs() == (old(userEmail), old(currentTabType), old(currentData), false)
      ensures Binding() == old(Binding()) && isSaving == old(isSaving) && delivered == old(delivered)
    {
      hasLoadCallback := false;
    }

    /** `setOnLoadSessionCallback` as intended (`setState(() => callback)`): registers
        (`present`) or clears the tab's callback. */
    method SetOnLoadSessionCallback(present: bool)
      modifies this
      ensures Inputs() == (old(userEmail), old(currentTabType), old(currentData), present)
      ensures Binding() == old(Binding()) && isSaving == old(isSaving) && delivered == old(delivered)
    {
      hasLoadCallback := present;
    }

    /** `saveProgress`. Without a user, a tab or a truthy payload nothing is called and nothing
        changes. Bound: the current session's `data` becomes the payload and the binding stays.
        Unbound: one session named `autoName` is created for the current tab and becomes the
        binding. `fails` says the store call raised; then the binding is left as it was.
        `isSaving` is false again after every attempt. */
    method SaveProgress(autoName: string, now: int, fails: bool)
      requires Valid()
      modifies this, store
      ensures Valid()
      ensures Inputs() == old(Inputs()) && delivered == old(delivered)
      ensures !old(CanSave()) ==>
        Binding() == old(Binding()) && isSaving == old(isSaving) && unchanged(store)
      ensures old(CanSave()) ==> !isSaving
      ensures old(CanSave()) && old(currentSessionId).Some? ==>
        var id := old(currentSessionId).value;
        && Binding() == old(Binding())
        && store.rows.Keys == old(store.rows).Keys
        && (forall j :: j in old(store.rows) && j != id ==> store.rows[j] == old(store.rows)[j])
        && (if !fails && id in old(store.rows)
            then store.rows[id] == old(store.rows)[id].(data := old(currentData), updatedAt := now)
            else store.rows == old(store.rows))
      ensures old(CanSave()) && old(currentSessionId).None? ==>
        if fails then Binding() == old(Binding()) && store.rows == old(store.rows)
        else
          && currentSessionId.Some? && currentSessionId.value !in old(store.rows)
          && currentSessionName == Some(autoName)
          && store.rows == old(store.rows)[currentSessionId.value :=
               Session(old(userEmail).value, autoName, old(currentTabType).value, old(currentData), now, now)]
    {
      if !CanSave() {
        return;
      }
      isSaving := true;
      if currentSessionId.Some? {
        if !fails {
          var ok := UpdateSession(store, currentSessionId.value, None, Some(currentData), now);
        }
      } else if !fails {
        var newId := CreateSession(store, userEmail.value, autoName, currentTabType.value, currentData, now);
        currentSessionId := Some(newId);
        currentSessionName := Some(autoName);
      }
      isSaving := false;
    }

    /** `saveAsNew`: under the same guard as `saveProgress`, always creates a new session named
        by the trimmed `name`, bound or not, and binds to it; a raising store call leaves the
        binding as it was. */
    method SaveAsNew(name: string, now: int, fails: bool)
      requires Valid()
      modifies this, store
      ensures Valid()
      ensures Inputs() == old(Inputs()) && delivered == old(delivered)
      ensures !old(CanSave()) || fails ==> Binding() == old(Binding()) && store.rows == old(store.rows)
      ensures !old(CanSave()) ==> isSaving == old(isSaving) && unchanged(store)
      ensures old(CanSave()) ==> !isSaving
      ensures old(CanSave()) && !fails ==>
        && currentSessionId.Some? && currentSessionId.value !in old(store.rows)
        && currentSessionName == Some(Trim(name))
        && store.rows == old(store.rows)[currentSessionId.value :=
             Session(old(userEmail).value, Trim(name), old(currentTabType).value, old(currentData), now, now)]
    {
      if !CanSave() {
        return;
      }
      isSaving := true;
      if !fails {
        var newId := CreateSession(store, userEmail.value, Trim(name), currentTabType.value, currentData, now);
        currentSessionId := Some(newId);
        currentSessionName := Some(Trim(name));
      }
      isSaving := false;
    }

    /** `loadSession`: binds to the session's id and name and hands its payload, verbatim, to
        the registered callback if there is one. The store is not touched. */
    method LoadSession(session: Doc<Session>)
      modifies this
      ensures Binding() == (Some(session.id), Some(session.value.name))
      ensures delivered == if old(hasLoadCallback) then Some(session.value.data) else old(delivered)
      ensures Inputs() == old(Inputs()) && isSaving == old(isSaving)
    {
      currentSessionId := Some(session.id);
      currentSessionName := Some(session.value.name);
      if hasLoadCallback {
        delivered := Some(session.value.data);
      }
    }
  }

  /** Two saves in a row on an unbound provider create exactly one session: the second save
      sees the binding the first one made and overwrites that session with the newer payload,
      keeping its id and name. */
  method SaveTwiceScenario(p: SessionProvider, autoName: string, later: Value, t0: int, t1: int)
    returns (id: Id)
    requires p.Valid() && p.CanSave() && p.currentSessionId.None? && Truthy(later)
    modifies p, p.store
    ensures p.Valid()
    ensures p.Binding() == (Some(id), Some(autoName))
    ensures id !in old(p.store.rows) && p.store.rows.Keys == old(p.store.rows).Keys + {id}
    ensures p.store.rows[id] == Session(old(p.userEmail).value, autoName, old(p.currentTabType).value,
                                        later, t0, t1)
  {
    p.SaveProgress(autoName, t0, false);
    id := p.currentSessionId.value;
    p.SetCurrentData(later);
    p.SaveProgress("unused", t1, false);
  }

  /** With the setter as written, a tab that registers its callback and then loads a session
      never receives the payload: the load binds to the session, and nothing is delivered. */
  method RegisterThenLoadAsWritten(p: SessionProvider, session: Doc<Session>)
    modifies p
    ensures p.Binding() == (Some(session.id), Some(session.value.name))
    ensures !p.hasLoadCallback && p.delivered == old(p.delivered)
  {
    p.SetOnLoadSessionCallbackAsWritten(true);
    p.LoadSession(session);
  }

  /** With the intended setter, the same registration followed by a load delivers the stored
      payload verbatim. */
  method RegisterThenLoad(p: SessionProvider, session: Doc<Session>)
    modifies p
    ensures p.Binding() == (Some(session.id), Some(session.value.name))
    ensures p.hasLoadCallback && p.delivered == Some(session.value.data)
  {
    p.SetOnLoadSessionCallback(true);
    p.LoadSession(session);
  }

  /** Loading a stored session and saving again writes the tab's payload back into that same
      session: the load is the round trip of the save. */
  method LoadThenSaveScenario(p: SessionProvider, id: Id, now: int)
    requires p.Valid() && p.CanSave() && p.hasLoadCallback && id in p.store.rows
    modifies p, p.store
    ensures p.delivered == Some(old(p.store.rows[id].data))
    ensures p.Binding() == (Some(id), Some(old(p.store.rows[id].name)))
    ensures id in p.store.rows
    ensures p.store.rows[id] == old(p.store.rows[id]).(data := old(p.currentData), updatedAt := now)
  {
    p.LoadSession(Doc(id, p.store.rows[id]));
    p.SaveProgress("unused", now, false);
  }
}
