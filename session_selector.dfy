/** The per-tab session picker (`SessionSelector`): its handlers and the `currentSession`
    lookup. Its props (`userEmail`, `tabType`, `currentData`, `currentSessionId`, whether an
    `onSessionChange` callback was passed) are fixed for one rendering; the parent's callbacks
    are recorded as the last payload handed to `onLoadSession` (`loaded`) and the last id
    reported through `onSessionChange` (`reported`). */
module SessionSelector {
  import opened Wrappers
  import opened Values
  import opened Strings
  import opened Tables
  import opened Sessions

  /** The component's own UI state. */
  datatype View = View(
    isOpen: bool,
    showSaveModal: bool,
    showSaveAsModal: bool,
    newSessionName: string,
    editingSessionId: Option<Id>,
    editingName: string,
    isSaving: bool,
    showSaveDropdown: bool)

  class SessionSelector {
    const store: Table<Session>
    const userEmail: string
    const tabType: string
    const currentData: Value
    const currentSessionId: Option<Id>
    const hasOnSessionChange: bool

    var isOpen: bool
    var showSaveModal: bool
    var showSaveAsModal: bool
    var newSessionName: string
    var editingSessionId: Option<Id>
    var editingName: string
    var isSaving: bool
    var showSaveDropdown: bool
    var loaded: Option<Value>
    var reported: Option<Id>

    ghost predicate Valid()
      reads this, store
    {
      store.Valid()
    }

    function Ui(): View
      reads this
    {
      View(isOpen, showSaveModal, showSaveAsModal, newSessionName, editingSessionId, editingName,
           isSaving, showSaveDropdown)
    }

    constructor (store: Table<Session>, userEmail: string, tabType: string, currentData: Value,
                 currentSessionId: Option<Id>, hasOnSessionChange: bool)
      requires store.Valid()
      ensures Valid() && this.store == store
      ensures this.userEmail == userEmail && this.tabType == tabType && this.currentData == currentData
      ensures this.currentSessionId == currentSessionId && this.hasOnSessionChange == hasOnSessionChange
      ensures Ui() == View(false, false, false, "", None, "", false, false)
      ensures loaded == None && reported == None
    {
      this.store := store;
      this.userEmail := userEmail;
      this.tabType := tabType;
      this.currentData := currentData;
      this.currentSessionId := currentSessionId;
      this.hasOnSessionChange := hasOnSessionChange;
      isOpen, showSaveModal, showSaveAsModal := false, false, false;
      newSessionName, editingSessionId, editingName := "", None, "";
      isSaving, showSaveDropdown := false, false;
      loaded, reported := None, None;
    }

    /** The `sessions` query: this user's sessions of this tab, newest first; skipped (nothing)
        while there is no user. */
    function ListedSessions(): (r: Option<seq<Doc<Session>>>)
      reads this, store
      requires Valid()
      ensures r.Some? <==> userEmail != ""
      ensures r.Some? ==> forall k :: 0 <= k < |r.value| ==>
        r.value[k].id in store.rows && r.value[k].value.email == userEmail
        && r.value[k].value.tabType == tabType
    {
      if userEmail != "" then Some(GetSessionsByTab(store, userEmail, tabType)) else None
    }

    /** `currentSession`: the listed session whose id is the current one; nothing when there
        is no current id, no listing yet, or no listed session with that id. */
    function CurrentSession(): (r: Option<Doc<Session>>)
      reads this, store
      requires Valid()
      ensures currentSessionId.None? ==> r.None?
      ensures r.Some? ==>
        currentSessionId == Some(r.value.id) && ListedSessions().Some? && r.value in ListedSessions().value
      ensures currentSessionId.Some? && ListedSessions().Some? && r.None? ==>
        forall k :: 0 <= k < |ListedSessions().value| ==> ListedSessions().value[k].id != currentSessionId.value
    {
      if currentSessionId.None? then None
      else match ListedSessions()
        case None => None
        case Some(docs) => FindById(docs, currentSessionId.value)
    }

    /** `handleSaveNew`: a name that is blank after trimming makes no call. Otherwise one
        session is created with the trimmed name, this tab and the payload; on success the
        name field is cleared, both save dialogs close and the new id is reported. */
    method HandleSaveNew(now: int, fails: bool) returns (created: Option<Id>)
      requires Valid()
      modifies this, store
      ensures Valid() && loaded == old(loaded)
      ensures IsBlank(old(newSessionName)) ==>
        created.None? && Ui() == old(Ui()) && reported == old(reported) && unchanged(store)
      ensures !IsBlank(old(newSessionName)) ==> if fails then
        created.None? && Ui() == old(Ui()).(isSaving := false) && reported == old(reported)
        && store.rows == old(store.rows)
      else
        && created.Some? && created.value !in old(store.rows)
        && store.rows == old(store.rows)[created.value :=
             Session(userEmail, Trim(old(newSessionName)), tabType, currentData, now, now)]
        && Ui() == View(old(isOpen), false, false, "", old(editingSessionId), old(editingName), false,
                        old(showSaveDropdown))
        && reported == if hasOnSessionChange then created else old(reported)
    {
      created := None;
      if IsBlank(newSessionName) {
        return;
      }
      var name := Trim(newSessionName);
      isSaving := true;
      if fails {
        isSaving := false;
        return;
      }
      ghost var rowsBefore := store.rows;
      var newId := CreateSession(store, userEmail, name, tabType, currentData, now);
      assert store.rows == rowsBefore[newId := Session(userEmail, name, tabType, currentData, now, now)];
      created := Some(newId);
      newSessionName, showSaveModal, showSaveAsModal := "", false, false;
      // A Convex id is a non-empty string, so the `newId` test always passes.
      if hasOnSessionChange {
        reported := Some(newId);
      }
      isSaving := false;
    }

    /** `handleSaveProgress`: bound, only the `data` of the current session is rewritten (its
        name never changes); unbound, no store call is made and the save dialog opens. The
        save menu closes either way. */
    method HandleSaveProgress(now: int, fails: bool)
      requires Valid()
      modifies this, store
      ensures Valid() && loaded == old(loaded) && reported == old(reported)
      ensures currentSessionId.None? ==>
        Ui() == old(Ui()).(showSaveModal := true, showSaveDropdown := false) && unchanged(store)
      ensures currentSessionId.Some? ==>
        var id := currentSessionId.value;
        && Ui() == old(Ui()).(isSaving := false, showSaveDropdown := false)
        && store.rows.Keys == old(store.rows).Keys
        && (forall j :: j in old(store.rows) && j != id ==> store.rows[j] == old(store.rows)[j])
        && (if !fails && id in old(store.rows)
            then store.rows[id] == old(store.rows)[id].(data := Supplied(currentData).GetOr(old(store.rows)[id].data),
                                                        updatedAt := now)
            else store.rows == old(store.rows))
    {
      if currentSessionId.Some? {
        isSaving := true;
        if !fails {
          var ok := UpdateSession(store, currentSessionId.value, None, Supplied(currentData), now);
        }
        isSaving := false;
      } else {
        showSaveModal := true;
      }
      showSaveDropdown := false;
    }

    /** `handleLoadSession`: hands the session's payload to `onLoadSession`, closes the list
        and reports the session's id as current. */
    method HandleLoadSession(session: Doc<Session>)
      modifies this
      ensures loaded == Some(session.value.data)
      ensures Ui() == old(Ui()).(isOpen := false)
      ensures reported == if hasOnSessionChange then Some(session.id) else old(reported)
    {
      loaded := Some(session.value.data);
      isOpen := false;
      if hasOnSessionChange {
        reported := Some(session.id);
      }
    }

    /** `handleUpdateCurrent`: rewrites the `data` of the given session. */
    method HandleUpdateCurrent(sessionId: Id, now: int, fails: bool)
      requires Valid()
      modifies store
      ensures Valid()
      ensures store.rows.Keys == old(store.rows).Keys
      ensures forall j :: j in old(store.rows) && j != sessionId ==> store.rows[j] == old(store.rows)[j]
      ensures if !fails && sessionId in old(store.rows)
              then store.rows[sessionId] ==
                   old(store.rows)[sessionId].(data := Supplied(currentData).GetOr(old(store.rows)[sessionId].data),
                                                updatedAt := now)
              else store.rows == old(store.rows)
    {
      if !fails {
        var ok := UpdateSession(store, sessionId, None, Supplied(currentData), now);
      }
    }

    /** `handleRename`: a blank name is ignored; otherwise the session is renamed to the
        trimmed name and, when that succeeded, the inline editor closes. */
    method HandleRename(sessionId: Id, now: int, fails: bool)
      requires Valid()
      modifies this, store
      ensures Valid() && loaded == old(loaded) && reported == old(reported)
      ensures IsBlank(old(editingName)) || fails ==> Ui() == old(Ui()) && store.rows == old(store.rows)
      ensures !IsBlank(old(editingName)) && !fails ==>
        if sessionId in old(store.rows) then
          && store.rows == old(store.rows)[sessionId :=
               old(store.rows)[sessionId].(name := Trim(old(editingName)), updatedAt := now)]
          && Ui() == old(Ui()).(editingSessionId := None, editingName := "")
        else Ui() == old(Ui()) && store.rows == old(store.rows)
    {
      if IsBlank(editingName) {
        return;
      }
      if !fails {
        var ok := RenameSession(store, sessionId, Trim(editingName), now);
        if ok {
          editingSessionId := None;
          editingName := "";
        }
      }
    }

    /** `handleDelete`: after the user confirms, removes the session. */
    method HandleDelete(sessionId: Id, confirmed: bool, fails: bool)
      requires Valid()
      modifies store
      ensures Valid()
      ensures store.rows == if confirmed && !fails then old(store.rows) - {sessionId} else old(store.rows)
    {
      if !confirmed {
        return;
      }
      if !fails {
        var ok := DeleteSession(store, sessionId);
      }
    }

    /** `handleDuplicate`: the copy is named after the original with " (Copy)" appended. */
    method HandleDuplicate(sessionId: Id, originalName: string, now: int, fails: bool)
      returns (copy: Option<Id>)
      requires Valid()
      modifies store
      ensures Valid()
      ensures fails || sessionId !in old(store.rows) ==> copy.None? && store.rows == old(store.rows)
      ensures !fails && sessionId in old(store.rows) ==>
        var original := old(store.rows)[sessionId];
        && copy.Some? && copy.value !in old(store.rows)
        && store.rows == old(store.rows)[copy.value :=
             Session(original.email, originalName + " (Copy)", original.tabType, original.data, now, now)]
    {
      copy := None;
      if !fails {
        var r := DuplicateSession(store, sessionId, originalName + " (Copy)", now);
        if r.Ok? {
          copy := Some(r.value);
        }
      }
    }
  }
}
