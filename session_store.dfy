/**
 * The client session (frontend/src/contexts/AuthContext.tsx): the token and the
 * user held in memory by `AuthProvider`, mirrored into the `token` and `user`
 * entries of local storage. The stored user is the `JSON.stringify` text of the
 * user object, and the mount effect reads it back with `JSON.parse`.
 */
module SessionStore {

  import opened Basics
  import opened Json
  import opened Browser

  const TokenKey: string := "token"
  const UserKey: string := "user"

  /** The in-memory state of the provider. */
  datatype Session = Session(token: Option<string>, user: Option<Json>)

  /** The entry stored under `key`, `null` when there is none. */
  function Stored(entries: map<string, string>, key: string): Option<string>
  {
    if key in entries then Some(entries[key]) else None
  }

  /**
   * The mount effect on session `s` with `entries` in storage: nothing happens
   * unless both entries are truthy; then the token is set, and the stored user is
   * parsed. `Err(t)` is the effect throwing, `t` the session it leaves behind.
   */
  function Restored(entries: map<string, string>, s: Session): (r: Result<Session, Session>)
    ensures r.Err? <==> Truthy(Stored(entries, TokenKey)) && Truthy(Stored(entries, UserKey))
                        && Parse(entries[UserKey]).None?
    ensures !(Truthy(Stored(entries, TokenKey)) && Truthy(Stored(entries, UserKey))) ==> r == Ok(s)
    ensures r.Err? ==> r.error == s.(token := Stored(entries, TokenKey))
    ensures r.Ok? && r.value != s ==>
      r.value.token == Stored(entries, TokenKey) && r.value.user == Parse(entries[UserKey])
    ensures Truthy(Stored(entries, TokenKey)) && Truthy(Stored(entries, UserKey))
            && Parse(entries[UserKey]).Some? ==>
      r == Ok(Session(Stored(entries, TokenKey), Parse(entries[UserKey])))
  {
    var token := Stored(entries, TokenKey);
    var user := Stored(entries, UserKey);
    if Truthy(token) && Truthy(user) then
      var withToken := s.(token := token);
      match Parse(user.value)
      case None => Err(withToken)
      case Some(u) => Ok(withToken.(user := Some(u)))
    else Ok(s)
  }

  /** The storage `login` and `updateUser` leave: the user under `user`, as JSON text. */
  function WithUser(entries: map<string, string>, u: Json): (r: map<string, string>)
    ensures UserKey in r && Parse(r[UserKey]) == Some(u)
    ensures forall k :: k != UserKey ==> (k in r <==> k in entries)
    ensures forall k :: k in entries && k != UserKey ==> r[k] == entries[k]
  {
    ParseStringify(u);
    entries[UserKey := Stringify(u)]
  }

  /** `AuthProvider`'s state and the storage it mirrors into. */
  class AuthProvider {
    var token: Option<string>
    var user: Option<Json>
    const storage: LocalStorage

    /** The provider mounts with no session. */
    constructor (storage: LocalStorage)
      ensures token == None && user == None && this.storage == storage
    {
      token := None;
      user := None;
      this.storage := storage;
    }

    function Current(): Session
      reads this
    {
      Session(token, user)
    }

    /** `isAuthenticated`: `!!token`, so an empty token does not count. */
    function IsAuthenticated(): (b: bool)
      reads this
      ensures b <==> token.Some? && |token.value| > 0
    {
      Truthy(token)
    }

    /**
     * The mount effect. A stored user that is not JSON makes `JSON.parse` throw,
     * after the token has already been set; `r` is then `Err`.
     */
    method Restore() returns (r: Result<(), string>)
      modifies this
      ensures storage.entries == old(storage.entries)
      ensures var out := Restored(storage.entries, old(Current()));
        && (out.Ok? ==> r.Ok? && Current() == out.value)
        && (out.Err? ==> r.Err? && Current() == out.error)
    {
      var savedToken := storage.GetItem(TokenKey);
      var savedUser := storage.GetItem(UserKey);
      if Truthy(savedToken) && Truthy(savedUser) {
        token := savedToken;
        var parsed := Parse(savedUser.value);
        if parsed.None? {
          return Err("SyntaxError: JSON.parse");
        }
        user := parsed;
      }
      r := Ok(());
    }

    /** `login`: both fields, then both entries. */
    method Login(newToken: string, newUser: Json)
      modifies this, storage
      ensures token == Some(newToken) && user == Some(newUser)
      ensures storage.entries == WithUser(old(storage.entries)[TokenKey := newToken], newUser)
    {
      token := Some(newToken);
      user := Some(newUser);
      storage.SetItem(TokenKey, newToken);
      storage.SetItem(UserKey, Stringify(newUser));
    }

    /** `logout`: both fields cleared and both entries removed. */
    method Logout()
      modifies this, storage
      ensures token == None && user == None
      ensures storage.entries == old(storage.entries) - {TokenKey, UserKey}
    {
      token := None;
      user := None;
      storage.RemoveItem(TokenKey);
      storage.RemoveItem(UserKey);
    }

    /** `updateUser`: the user field and entry; it works with or without a session. */
    method UpdateUser(updatedUser: Json)
      modifies this, storage
      ensures token == old(token) && user == Some(updatedUser)
      ensures storage.entries == WithUser(old(storage.entries), updatedUser)
    {
      user := Some(updatedUser);
      storage.SetItem(UserKey, Stringify(updatedUser));
    }
  }

  /** With either entry missing or empty, the mount effect leaves the session as it was. */
  lemma RestoreNeedsBoth(entries: map<string, string>, s: Session)
    requires !Truthy(Stored(entries, TokenKey)) || !Truthy(Stored(entries, UserKey))
    ensures Restored(entries, s) == Ok(s)
  {
  }

  /** A stored user that is not JSON throws, with the token already in memory and the user untouched. */
  lemma RestoreMalformedUserThrows(entries: map<string, string>, s: Session)
    requires Truthy(Stored(entries, TokenKey)) && Truthy(Stored(entries, UserKey))
    requires Parse(entries[UserKey]).None?
    ensures Restored(entries, s) == Err(Session(Some(entries[TokenKey]), s.user))
  {
  }

  /**
   * What `login` stores, the next mount reads back: the same token and the same
   * user, whatever was in memory, as long as the token is not empty.
   */
  lemma LoginThenRestore(entries: map<string, string>, t: string, u: Json, s: Session)
    requires t != []
    ensures Restored(WithUser(entries[TokenKey := t], u), s) == Ok(Session(Some(t), Some(u)))
  {
    var stored := WithUser(entries[TokenKey := t], u);
    assert Stored(stored, TokenKey) == Some(t);
    assert Stored(stored, UserKey) == Some(stored[UserKey]);
  }

  /** An empty token is stored by `login`, but the next mount does not restore the session. */
  lemma LoginEmptyTokenNotRestored(entries: map<string, string>, u: Json, s: Session)
    ensures Restored(WithUser(entries[TokenKey := []], u), s) == Ok(s)
  {
    var stored := WithUser(entries[TokenKey := []], u);
    assert Stored(stored, TokenKey) == Some([]);
  }

  /** After `updateUser`, the next mount restores the stored token with the new user. */
  lemma UpdateUserThenRestore(entries: map<string, string>, u: Json, s: Session)
    requires Truthy(Stored(entries, TokenKey))
    ensures Restored(WithUser(entries, u), s) == Ok(Session(Some(entries[TokenKey]), Some(u)))
  {
    var stored := WithUser(entries, u);
    assert Stored(stored, TokenKey) == Stored(entries, TokenKey);
    assert Stored(stored, UserKey) == Some(stored[UserKey]);
  }

  /** After `logout`, the next mount changes nothing; a second `logout` removes nothing more. */
  lemma LogoutThenRestore(entries: map<string, string>, s: Session)
    ensures Restored(entries - {TokenKey, UserKey}, s) == Ok(s)
    ensures (entries - {TokenKey, UserKey}) - {TokenKey, UserKey} == entries - {TokenKey, UserKey}
  {
    assert Stored(entries - {TokenKey, UserKey}, TokenKey) == None;
  }
}
