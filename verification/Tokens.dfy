/** The web token store: what each of its operations does to the token map. */
module Tokens {
  import opened Text
  import opened Sessions
  import opened Access

  type Token = string

  datatype Entry = Entry(sessionID: Id, issuedAt: Time)

  type TokenMap = map<Token, Entry>

  /** Validate's answer, and the map after it: an entry that is too old is removed. */
  function ValidateIn(tokens: TokenMap, cookie: Option<Token>, now: Time): (Option<Id>, TokenMap) {
    if cookie.None? || cookie.value !in tokens then (None, tokens)
    else if now - tokens[cookie.value].issuedAt > TOKEN_MAX_AGE then (None, tokens - {cookie.value})
    else (Some(tokens[cookie.value].sessionID), tokens)
  }

  function WithoutSession(tokens: TokenMap, id: Id): TokenMap {
    map t | t in tokens && tokens[t].sessionID != id :: tokens[t]
  }

  /** authStore: the map lives in the object and is changed by every method. */
  class AuthStore {
    var tokens: TokenMap

    constructor ()
      ensures tokens == map[]
    {
      tokens := map[];
    }

    /** `tok` is the random token that was drawn. */
    method IssueToken(tok: Token, sessionID: Id, now: Time)
      modifies this
      ensures tokens == old(tokens)[tok := Entry(sessionID, now)]
    {
      tokens := tokens[tok := Entry(sessionID, now)];
    }

    method Revoke(tok: Token)
      modifies this
      ensures tokens == old(tokens) - {tok}
    {
      tokens := tokens - {tok};
    }

    method Validate(cookie: Option<Token>, now: Time) returns (sessionID: Option<Id>)
      modifies this
      ensures (sessionID, tokens) == ValidateIn(old(tokens), cookie, now)
      ensures forall id :: sessionID == Some(id) <==>
                cookie.Some? && cookie.value in old(tokens) && old(tokens)[cookie.value].sessionID == id
                && now - old(tokens)[cookie.value].issuedAt <= 12 * HOUR
      ensures forall t :: t in tokens <==>
                t in old(tokens) && (Some(t) == cookie ==> now - old(tokens)[t].issuedAt <= 12 * HOUR)
      ensures forall t :: t in tokens ==> tokens[t] == old(tokens)[t]
    {
      if cookie.None? {
        return None;
      }
      if cookie.value !in tokens {
        return None;
      }
      var entry := tokens[cookie.value];
      if now - entry.issuedAt > TOKEN_MAX_AGE {
        Revoke(cookie.value);
        return None;
      }
      return Some(entry.sessionID);
    }

    /** The loop deletes from the map it ranges over; it visits the tokens in some order. */
    method RevokeSession(sessionID: Id)
      modifies this
      ensures tokens == WithoutSession(old(tokens), sessionID)
      ensures forall t :: t in tokens <==> t in old(tokens) && old(tokens)[t].sessionID != sessionID
      ensures forall t :: t in tokens ==> tokens[t] == old(tokens)[t]
    {
      var rest := tokens.Keys;
      while rest != {}
        invariant rest <= old(tokens).Keys && rest <= tokens.Keys <= old(tokens).Keys
        invariant forall t :: t in tokens ==> tokens[t] == old(tokens)[t]
        invariant forall t :: t in old(tokens) && t !in rest ==>
                    (t in tokens <==> old(tokens)[t].sessionID != sessionID)
        decreases |rest|
      {
        var tok :| tok in rest;
        rest := rest - {tok};
        if tokens[tok].sessionID == sessionID {
          tokens := tokens - {tok};
        }
      }
    }
  }
}
