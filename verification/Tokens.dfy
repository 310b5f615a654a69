/** Refresh tokens that are replaced on every use, and families of them that die when one is used twice.

    A token stands for its hash, hashing being injective; new tokens and family names are inputs. */
module Tokens {
  type Token = nat

  type Family = nat

  const TOKEN_LIFETIME := 86400 * 30
  const CLAIMS_LIFETIME := 86400 * 7

  datatype Record =
    Record(userId: int, username: string, role: string, family: Family, expiresAt: nat, revoked: bool)

  datatype Rotation =
    | Rotated(userId: int, username: string, role: string, claimsExpireAt: nat, newToken: Token)
    | InvalidToken
    | Expired
    | ReuseDetected

  /** Each token is in the list of its family, and the lists hold nothing else. */
  ghost predicate Indexed(tokens: map<Token, Record>, families: map<Family, seq<Token>>) {
    && (forall t :: t in tokens ==> tokens[t].family in families && t in families[tokens[t].family])
    && (forall f, i :: f in families && 0 <= i < |families[f]| ==>
          families[f][i] in tokens && tokens[families[f][i]].family == f)
  }

  /** Of two tokens of one family at least one is revoked. */
  ghost predicate OneLive(tokens: map<Token, Record>) {
    forall t, u :: t in tokens && u in tokens && t != u && tokens[t].family == tokens[u].family ==>
      tokens[t].revoked || tokens[u].revoked
  }

  function ListOf(families: map<Family, seq<Token>>, f: Family): seq<Token> {
    if f in families then families[f] else []
  }

  /** The tokens of the other families. */
  function Outside(tokens: map<Token, Record>, f: Family): map<Token, Record> {
    map t | t in tokens && tokens[t].family != f :: tokens[t]
  }

  lemma IndexedPut(tokens: map<Token, Record>, families: map<Family, seq<Token>>, t: Token, record: Record)
    requires Indexed(tokens, families) && t !in tokens
    ensures Indexed(tokens[t := record], families[record.family := ListOf(families, record.family) + [t]])
  {
    var f := record.family;
    var tokens', families' := tokens[t := record], families[f := ListOf(families, f) + [t]];
    assert families'[f][|ListOf(families, f)|] == t;
    forall u | u in tokens' ensures tokens'[u].family in families' && u in families'[tokens'[u].family] {
      if u != t && tokens[u].family == f {
        var i :| 0 <= i < |families[f]| && families[f][i] == u;
        assert families'[f][i] == u;
      }
    }
  }

  lemma IndexedDrop(tokens: map<Token, Record>, families: map<Family, seq<Token>>, f: Family)
    requires Indexed(tokens, families)
    ensures f !in families ==> forall t :: t in tokens ==> tokens[t].family != f
    ensures f in families ==> Outside(tokens, f) == tokens - (set t | t in families[f])
    ensures Indexed(Outside(tokens, f), families - {f})
  {
  }

  /** A token gives way to a new one of its family. */
  lemma OneLiveRotated(tokens: map<Token, Record>, t: Token, u: Token, record: Record)
    requires OneLive(tokens) && t in tokens && !tokens[t].revoked && u !in tokens && record.family == tokens[t].family
    ensures OneLive(tokens[t := tokens[t].(revoked := true)][u := record])
  {
  }

  lemma IndexedRevoked(tokens: map<Token, Record>, families: map<Family, seq<Token>>, t: Token)
    requires Indexed(tokens, families) && t in tokens
    ensures Indexed(tokens[t := tokens[t].(revoked := true)], families) && tokens[t].family in families
  {
  }

  class RefreshSessionStore {
    var tokens: map<Token, Record>
    var families: map<Family, seq<Token>>

    ghost predicate Valid()
      reads this
    {
      Indexed(tokens, families) && OneLive(tokens)
    }

    constructor ()
      ensures Valid() && tokens == map[] && families == map[]
    {
      tokens, families := map[], map[];
    }

    method IssueToken(userId: int, username: string, role: string, now: nat, token: Token, family: Family)
      requires Valid() && token !in tokens && family !in families
      modifies this
      ensures Valid() && families.Keys == old(families.Keys) + {family}
      ensures tokens == old(tokens)[token := Record(userId, username, role, family, now + TOKEN_LIFETIME, false)]
    {
      var record := Record(userId, username, role, family, now + TOKEN_LIFETIME, false);
      IndexedPut(tokens, families, token, record);
      tokens := tokens[token := record];
      families := families[family := ListOf(families, family) + [token]];
    }

    method RotateToken(token: Token, now: nat, newToken: Token) returns (r: Rotation)
      requires Valid() && newToken !in tokens
      modifies this
      ensures Valid() && families.Keys <= old(families.Keys)
      ensures r.InvalidToken? <==> token !in old(tokens)
      ensures r.Expired? <==> token in old(tokens) && old(tokens)[token].expiresAt < now
      ensures r.InvalidToken? || r.Expired? ==> tokens == old(tokens)
      ensures r.Rotated? <==> token in old(tokens) && now <= old(tokens)[token].expiresAt && !old(tokens)[token].revoked
      ensures r.Rotated? ==>
                var record := old(tokens)[token];
                && r == Rotated(record.userId, record.username, record.role, now + CLAIMS_LIFETIME, newToken)
                && tokens == old(tokens)[token := record.(revoked := true)]
                                        [newToken := record.(expiresAt := now + TOKEN_LIFETIME)]
      ensures r.ReuseDetected? ==> tokens == Outside(old(tokens), old(tokens)[token].family)
      ensures Rotation(r) == AnswerTo(old(tokens), Rotate(token, now, newToken))
      ensures tokens == After(old(tokens), Rotate(token, now, newToken))
    {
      hide Indexed, OneLive;
      if token !in tokens {
        return InvalidToken;
      }
      var record := tokens[token];
      if record.expiresAt < now {
        return Expired;
      }
      if record.revoked {
        RevokeFamily(record.family);
        return ReuseDetected;
      }
      var family := record.family;
      var newRecord := Record(record.userId, record.username, record.role, family, now + TOKEN_LIFETIME, false);
      IndexedRevoked(tokens, families, token);
      OneLiveRotated(tokens, token, newToken, newRecord);
      tokens := tokens[token := record.(revoked := true)];
      IndexedPut(tokens, families, newToken, newRecord);
      tokens := tokens[newToken := newRecord];
      if family in families {
        families := families[family := families[family] + [newToken]];
      }
      r := Rotated(record.userId, record.username, record.role, now + CLAIMS_LIFETIME, newToken);
    }

    /** Forgets every token of a family. */
    method RevokeFamily(family: Family)
      requires Valid()
      modifies this
      ensures Valid() && tokens == Outside(old(tokens), family) && families == old(families) - {family}
    {
      hide Indexed;
      IndexedDrop(tokens, families, family);
      if family in families {
        var hashes := families[family];
        families := families - {family};
        var i := 0;
        while i < |hashes|
          invariant 0 <= i <= |hashes|
          invariant tokens == old(tokens) - (set t | t in hashes[..i])
          modifies `tokens
        {
          assert hashes[..i + 1] == hashes[..i] + [hashes[i]];
          tokens := tokens - {hashes[i]};
          i := i + 1;
        }
        assert hashes[..i] == hashes;
      }
      assert families == old(families) - {family};
      assert tokens == Outside(old(tokens), family);
    }

    method RevokeToken(token: Token) returns (found: bool)
      requires Valid()
      modifies `tokens
      ensures Valid() && (found <==> token in old(tokens))
      ensures tokens == if found then old(tokens)[token := old(tokens)[token].(revoked := true)] else old(tokens)
    {
      hide Indexed;
      if token in tokens {
        IndexedRevoked(tokens, families, token);
        tokens := tokens[token := tokens[token].(revoked := true)];
        return true;
      }
      return false;
    }
  }

  // ----- Whole runs

  datatype Request =
    | Issue(userId: int, username: string, role: string, now: nat, newToken: Token, family: Family)
    | Rotate(token: Token, now: nat, newToken: Token)
    | Revoke(token: Token)

  datatype Answer = Issued | Rotation(r: Rotation) | Revocation(found: bool)

  /** The answer to a request, given the tokens before it. */
  function AnswerTo(tokens: map<Token, Record>, q: Request): Answer {
    match q
    case Issue(_, _, _, _, _, _) => Issued
    case Rotate(token, now, newToken) =>
      if token !in tokens then Rotation(InvalidToken)
      else
        var record := tokens[token];
        if record.expiresAt < now then Rotation(Expired)
        else if record.revoked then Rotation(ReuseDetected)
        else Rotation(Rotated(record.userId, record.username, record.role, now + CLAIMS_LIFETIME, newToken))
    case Revoke(token) => Revocation(token in tokens)
  }

  /** The tokens after a request. */
  function After(tokens: map<Token, Record>, q: Request): map<Token, Record> {
    match q
    case Issue(userId, username, role, now, newToken, family) =>
      tokens[newToken := Record(userId, username, role, family, now + TOKEN_LIFETIME, false)]
    case Rotate(token, now, newToken) =>
      var answer := AnswerTo(tokens, q);
      if answer.r.ReuseDetected? then Outside(tokens, tokens[token].family)
      else if answer.r.Rotated? then
        tokens[token := tokens[token].(revoked := true)]
              [newToken := tokens[token].(expiresAt := now + TOKEN_LIFETIME)]
      else tokens
    case Revoke(token) => if token in tokens then tokens[token := tokens[token].(revoked := true)] else tokens
  }

  function TokensAfter(script: seq<Request>): map<Token, Record> {
    if script == [] then map[] else After(TokensAfter(script[..|script| - 1]), script[|script| - 1])
  }

  lemma AfterNext(script: seq<Request>, i: nat)
    requires i < |script|
    ensures TokensAfter(script[..i + 1]) == After(TokensAfter(script[..i]), script[i])
  {
    assert script[..i + 1][..i] == script[..i];
  }

  function NewTokens(script: seq<Request>): set<Token> {
    if script == [] then {} else
      var last := script[|script| - 1];
      NewTokens(script[..|script| - 1]) + if last.Revoke? then {} else {last.newToken}
  }

  function NewFamilies(script: seq<Request>): set<Family> {
    if script == [] then {} else
      var last := script[|script| - 1];
      NewFamilies(script[..|script| - 1]) + if last.Issue? then {last.family} else {}
  }

  /** New tokens and family names are none of the earlier ones. */
  ghost predicate Fresh(script: seq<Request>) {
    forall i :: 0 <= i < |script| ==> FreshAt(script, i)
  }

  ghost predicate FreshAt(script: seq<Request>, i: nat)
    requires i < |script|
  {
    && (!script[i].Revoke? ==> script[i].newToken !in NewTokens(script[..i]))
    && (script[i].Issue? ==> script[i].family !in NewFamilies(script[..i]))
  }

  /** The request at `i` was a rotation and was accepted. */
  ghost predicate AcceptedAt(script: seq<Request>, i: nat)
    requires i < |script|
    ensures AcceptedAt(script, i) ==> script[i].Rotate? && script[i].token in TokensAfter(script[..i])
  {
    script[i].Rotate? && AnswerTo(TokensAfter(script[..i]), script[i]).r.Rotated?
  }

  /** The request at `i` used a revoked token in time. */
  ghost predicate ReusedAt(script: seq<Request>, i: nat)
    requires i < |script|
    ensures ReusedAt(script, i) ==> script[i].Rotate? && script[i].token in TokensAfter(script[..i])
  {
    script[i].Rotate? && AnswerTo(TokensAfter(script[..i]), script[i]).r.ReuseDetected?
  }

  ghost function RecordAt(script: seq<Request>, i: nat): Record
    requires i < |script| && !script[i].Issue? && script[i].token in TokensAfter(script[..i])
  {
    TokensAfter(script[..i])[script[i].token]
  }

  ghost predicate NewTo(tokens: map<Token, Record>, q: Request) {
    && (!q.Revoke? ==> q.newToken !in tokens)
    && (q.Issue? ==> forall t :: t in tokens ==> tokens[t].family != q.family)
  }

  lemma OneLiveNext(m: map<Token, Record>, q: Request)
    requires OneLive(m) && NewTo(m, q)
    ensures OneLive(After(m, q))
  {
    if q.Rotate? && AnswerTo(m, q).r.Rotated? {
      OneLiveRotated(m, q.token, q.newToken, m[q.token].(expiresAt := q.now + TOKEN_LIFETIME));
    }
  }

  ghost predicate Named(m: map<Token, Record>, tokens: set<Token>, families: set<Family>) {
    m.Keys <= tokens && forall t :: t in m ==> m[t].family in families
  }

  lemma NamedNext(m: map<Token, Record>, q: Request, tokens: set<Token>, families: set<Family>)
    requires Named(m, tokens, families)
    ensures Named(After(m, q), tokens + if q.Revoke? then {} else {q.newToken},
                  families + if q.Issue? then {q.family} else {})
  {
  }

  /** After any requests a family has at most one token that is not revoked, and all tokens were issued. */
  lemma {:induction false} OneLiveAlways(script: seq<Request>, i: nat)
    requires Fresh(script) && i <= |script|
    ensures OneLive(TokensAfter(script[..i]))
    ensures Named(TokensAfter(script[..i]), NewTokens(script[..i]), NewFamilies(script[..i]))
  {
    if i > 0 {
      var m, q := TokensAfter(script[..i - 1]), script[i - 1];
      OneLiveAlways(script, i - 1);
      AfterNext(script, i - 1);
      assert script[..i][..i - 1] == script[..i - 1] && FreshAt(script, i - 1);
      assert NewTo(m, q);
      hide OneLive, NewTo, Fresh, After, Named;
      OneLiveNext(m, q);
      NamedNext(m, q, NewTokens(script[..i - 1]), NewFamilies(script[..i - 1]));
    }
  }

  lemma {:induction false} NamesGrow(script: seq<Request>, i: nat, j: nat)
    requires i <= j <= |script|
    ensures NewTokens(script[..i]) <= NewTokens(script[..j]) && NewFamilies(script[..i]) <= NewFamilies(script[..j])
  {
    if i < j {
      NamesGrow(script, i, j - 1);
      assert script[..j][..j - 1] == script[..j - 1];
    }
  }

  ghost predicate NoneOf(tokens: map<Token, Record>, f: Family) {
    forall t :: t in tokens ==> tokens[t].family != f
  }

  /** A family that was named and has no token never has one again. */
  lemma {:induction false} GoneStays(script: seq<Request>, f: Family, i: nat, j: nat)
    requires Fresh(script) && i <= j <= |script| && f in NewFamilies(script[..i])
    requires NoneOf(TokensAfter(script[..i]), f)
    ensures NoneOf(TokensAfter(script[..j]), f)
  {
    if i < j {
      assert FreshAt(script, j - 1);
      hide Fresh, NoneOf, TokensAfter, After, NewFamilies, NewTokens;
      GoneStays(script, f, i, j - 1);
      AfterNext(script, j - 1);
      NamesGrow(script, i, j - 1);
      NoneNext(TokensAfter(script[..j - 1]), script[j - 1], f);
    }
  }

  lemma NoneNext(m: map<Token, Record>, q: Request, f: Family)
    requires NoneOf(m, f) && (q.Issue? ==> q.family != f)
    ensures NoneOf(After(m, q), f)
  {
  }

  /** A token is as it was when it was accepted, but revoked, or it is gone with its whole family. */
  ghost predicate Used(m: map<Token, Record>, t: Token, record: Record) {
    if t in m then m[t] == record.(revoked := true) else NoneOf(m, record.family)
  }

  lemma UsedNext(m: map<Token, Record>, t: Token, record: Record, q: Request)
    requires Used(m, t, record)
    requires (!q.Revoke? ==> q.newToken != t) && (q.Issue? ==> q.family != record.family)
    ensures Used(After(m, q), t, record)
  {
  }

  lemma {:induction false} AcceptedStays(script: seq<Request>, i: nat, j: nat)
    requires Fresh(script) && i < j <= |script| && AcceptedAt(script, i)
    ensures Used(TokensAfter(script[..j]), script[i].token, RecordAt(script, i))
  {
    assert FreshAt(script, j - 1) && FreshAt(script, i);
    hide Fresh, OneLive, TokensAfter, NewTokens, NewFamilies;
    AfterNext(script, j - 1);
    OneLiveAlways(script, i);
    NamesGrow(script, i, j - 1);
    if i < j - 1 {
      AcceptedStays(script, i, j - 1);
      hide After, AcceptedAt, Used;
      UsedNext(TokensAfter(script[..j - 1]), script[i].token, RecordAt(script, i), script[j - 1]);
    } else {
      assert script[i].newToken != script[i].token;
    }
  }

  /** The request at `i` gave out its new token. */
  ghost predicate GivenAt(script: seq<Request>, i: nat)
    requires i < |script|
  {
    script[i].Issue? || AcceptedAt(script, i)
  }

  lemma {:induction false} ExpiryStays(script: seq<Request>, i: nat, j: nat)
    requires Fresh(script) && i < j <= |script| && GivenAt(script, i)
    requires script[i].newToken in TokensAfter(script[..j])
    ensures TokensAfter(script[..j])[script[i].newToken].expiresAt == script[i].now + 2592000
    decreases j
  {
    AfterNext(script, j - 1);
    if j - 1 > i {
      assert FreshAt(script, j - 1);
      NamesGrow(script, i + 1, j - 1);
      assert script[..i + 1][..i] == script[..i];
      ExpiryKept(TokensAfter(script[..j - 1]), script[j - 1], script[i].newToken);
      ExpiryStays(script, i, j - 1);
    }
  }

  lemma ExpiryKept(tokens: map<Token, Record>, q: Request, t: Token)
    requires t in After(tokens, q) && (!q.Revoke? ==> q.newToken != t)
    ensures t in tokens && After(tokens, q)[t].expiresAt == tokens[t].expiresAt
  {
  }

  /** Thirty days and no longer: a token that is used is expired exactly when more seconds than that have passed since
      it was given out, and what it is exchanged for in time holds for seven days. */
  lemma ThirtyDays(script: seq<Request>, i: nat, j: nat)
    requires Fresh(script) && i < j < |script| && GivenAt(script, i)
    requires script[j].Rotate? && script[j].token == script[i].newToken && script[j].token in TokensAfter(script[..j])
    ensures var r := AnswerTo(TokensAfter(script[..j]), script[j]).r;
            && (r.Expired? <==> script[j].now > script[i].now + 2592000)
            && (r.Rotated? ==> r.claimsExpireAt == script[j].now + 604800)
    ensures j == i + 1 && script[j].now <= script[i].now + 2592000 ==> AcceptedAt(script, j)
  {
    ExpiryStays(script, i, j);
    AfterNext(script, i);
  }

  /** No token is accepted twice. */
  lemma NoTokenTwice(script: seq<Request>, i: nat, j: nat)
    requires Fresh(script) && i < j < |script| && AcceptedAt(script, i) && AcceptedAt(script, j)
    ensures script[i].token != script[j].token
  {
    hide Fresh;
    AcceptedStays(script, i, j);
  }

  /** Nor any token of a family of which a revoked one was used in time. */
  lemma NoDeadFamily(script: seq<Request>, i: nat, j: nat)
    requires Fresh(script) && i < j < |script| && ReusedAt(script, i) && AcceptedAt(script, j)
    ensures RecordAt(script, i).family != RecordAt(script, j).family
  {
    hide Fresh;
    AfterNext(script, i);
    OneLiveAlways(script, i);
    NamesGrow(script, i, i + 1);
    GoneStays(script, RecordAt(script, i).family, i + 1, j);
  }

  /** Whoever uses an accepted token a second time, and in time, ends the session for everyone. */
  lemma SecondUse(script: seq<Request>, i: nat, j: nat, k: nat)
    requires Fresh(script) && i < j < k < |script| && AcceptedAt(script, i)
    requires script[j].Rotate? && script[j].token == script[i].token && script[j].now <= RecordAt(script, i).expiresAt
    requires AcceptedAt(script, k)
    ensures RecordAt(script, k).family != RecordAt(script, i).family
  {
    hide Fresh;
    AcceptedStays(script, i, j);
    if script[i].token in TokensAfter(script[..j]) {
      assert ReusedAt(script, j);
      NoDeadFamily(script, j, k);
    } else {
      OneLiveAlways(script, i);
      NamesGrow(script, i, j);
      GoneStays(script, RecordAt(script, i).family, j, k);
    }
  }

  /** One request of a run. */
  method Answering(store: RefreshSessionStore, q: Request) returns (a: Answer)
    requires store.Valid() && (!q.Revoke? ==> q.newToken !in store.tokens) && (q.Issue? ==> q.family !in store.families)
    modifies store
    ensures store.Valid() && a == AnswerTo(old(store.tokens), q) && store.tokens == After(old(store.tokens), q)
    ensures store.families.Keys <= old(store.families.Keys) + if q.Issue? then {q.family} else {}
  {
    hide RefreshSessionStore.Valid, Outside;
    match q {
      case Issue(userId, username, role, now, newToken, family) =>
        store.IssueToken(userId, username, role, now, newToken, family);
        a := Issued;
      case Rotate(token, now, newToken) =>
        var r := store.RotateToken(token, now, newToken);
        a := Rotation(r);
      case Revoke(token) =>
        var found := store.RevokeToken(token);
        a := Revocation(found);
    }
  }

  lemma NextRequest(script: seq<Request>, i: nat)
    requires Fresh(script) && i < |script|
    ensures !script[i].Revoke? ==> script[i].newToken !in TokensAfter(script[..i])
    ensures script[i].Issue? ==> script[i].family !in NewFamilies(script[..i])
    ensures TokensAfter(script[..i + 1]) == After(TokensAfter(script[..i]), script[i])
    ensures NewFamilies(script[..i + 1]) == NewFamilies(script[..i]) + if script[i].Issue? then {script[i].family}
            else {}
  {
    OneLiveAlways(script, i);
    AfterNext(script, i);
    assert FreshAt(script, i) && script[..i + 1][..i] == script[..i];
  }

  /** Any requests at all, in any order, against a new store. */
  method Serve(script: seq<Request>) returns (log: seq<Answer>)
    requires Fresh(script)
    ensures |log| == |script|
    ensures forall i :: 0 <= i < |log| ==> log[i] == AnswerTo(TokensAfter(script[..i]), script[i])
  {
    var store := new RefreshSessionStore();
    log := [];
    var i := 0;
    while i < |script|
      invariant 0 <= i <= |script| && |log| == i
      invariant store.Valid() && fresh(store) && store.tokens == TokensAfter(script[..i])
      invariant store.families.Keys <= NewFamilies(script[..i])
      invariant forall j :: 0 <= j < i ==> log[j] == AnswerTo(TokensAfter(script[..j]), script[j])
    {
      hide *;
      NextRequest(script, i);
      var a := Answering(store, script[i]);
      log := log + [a];
      i := i + 1;
    }
  }
}
