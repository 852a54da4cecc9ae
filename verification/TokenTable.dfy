/** The refresh_tokens table and the statements on it, as functions on its contents. */
module TokenTable {
  import opened Wrappers

  datatype Token = Token(userId: int, hash: string, expiresAt: int, revokedAt: Option<int>)

  type Tokens = map<int, Token>

  predicate IsExpired(t: Token, now: int) {
    t.expiresAt <= now
  }

  predicate IsRevoked(t: Token) {
    t.revokedAt.Some?
  }

  predicate IsActive(t: Token, now: int) {
    !IsRevoked(t) && !IsExpired(t, now)
  }

  ghost predicate HashesUnique(tokens: Tokens) {
    forall i, j | i in tokens && j in tokens && tokens[i].hash == tokens[j].hash :: i == j
  }

  ghost predicate HashFree(tokens: Tokens, hash: string) {
    forall i | i in tokens :: tokens[i].hash != hash
  }

  /** The conditional revoke matches a row only while it is not revoked. */
  predicate Revocable(tokens: Tokens, id: int) {
    id in tokens && !IsRevoked(tokens[id])
  }

  function Revoked(tokens: Tokens, id: int, at: int): Tokens {
    if Revocable(tokens, id) then tokens[id := tokens[id].(revokedAt := Some(at))] else tokens
  }

  /** Deleting a user deletes its tokens. */
  function Cascaded(tokens: Tokens, userId: int): Tokens {
    map id | id in tokens && tokens[id].userId != userId :: tokens[id]
  }

  function Unrevoked(tokens: Tokens, userId: int): set<int> {
    set id | id in tokens && tokens[id].userId == userId && !IsRevoked(tokens[id])
  }

  lemma UnrevokedInserted(tokens: Tokens, id: int, userId: int, hash: string, expiresAt: int, u: int)
    requires id !in tokens
    ensures Unrevoked(tokens[id := Token(userId, hash, expiresAt, None)], u) ==
            if u == userId then Unrevoked(tokens, u) + {id} else Unrevoked(tokens, u)
  {
  }

  lemma UnrevokedRevoked(tokens: Tokens, id: int, at: int, u: int)
    ensures Unrevoked(Revoked(tokens, id, at), u) ==
            if Revocable(tokens, id) && tokens[id].userId == u then Unrevoked(tokens, u) - {id} else Unrevoked(tokens, u)
  {
  }
}
