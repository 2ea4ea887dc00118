/** models/TokenBlacklist.js: tokens revoked before their natural expiry.
    A document is `{ token, createdAt }`; the collection's TTL index removes it
    fifteen minutes after `createdAt`. */
module TokenBlacklist {
  import opened Common

  /** `expires: '15m'` on `createdAt`, in milliseconds. */
  const TtlMs: int := 15 * 60 * 1000

  datatype Entry = Entry(token: Token, createdAt: Time)

  /** An entry exists until fifteen minutes after it was created. */
  predicate Live(e: Entry, now: Time) {
    now < e.createdAt + TtlMs
  }

  /** `TokenBlacklist.findOne({ token })` finds a document at time `now`. */
  predicate Contains(entries: seq<Entry>, token: Token, now: Time) {
    exists i :: 0 <= i < |entries| && entries[i].token == token && Live(entries[i], now)
  }

  /** The `unique` index: no two live documents share a token. */
  predicate UniqueTokens(entries: seq<Entry>, now: Time) {
    forall i, j :: 0 <= i < j < |entries| && Live(entries[i], now) && Live(entries[j], now) ==>
      entries[i].token != entries[j].token
  }

  /** No document was created after `now`. */
  predicate CreatedBy(entries: seq<Entry>, now: Time) {
    forall i :: 0 <= i < |entries| ==> entries[i].createdAt <= now
  }

  datatype CreateError = TokenRequired | DuplicateToken

  /** `TokenBlacklist.create({ token, expiresAt })`. The schema declares no
      `expiresAt`, so the requested expiry is dropped and `createdAt` gets the
      current time. A missing token fails `required`; a token already present
      fails the `unique` index. */
  function Create(entries: seq<Entry>, token: Token, requestedExpiry: Time, now: Time): (r: Result<seq<Entry>, CreateError>)
    ensures r.Ok? <==> token != "" && !Contains(entries, token, now)
    ensures token == "" ==> r == Err(TokenRequired)
    ensures r.Ok? ==> Contains(r.value, token, now) && |r.value| == |entries| + 1 && r.value[..|entries|] == entries
    ensures r.Ok? ==> forall t :: t != token ==> (Contains(r.value, t, now) <==> Contains(entries, t, now))
  {
    if token == "" then Err(TokenRequired)
    else if Contains(entries, token, now) then Err(DuplicateToken)
    else
      var r := entries + [Entry(token, now)];
      assert r[|entries|].token == token;
      assert forall t :: Contains(entries, t, now) ==> Contains(r, t, now) by {
        forall t | Contains(entries, t, now) ensures Contains(r, t, now) {
          var i :| 0 <= i < |entries| && entries[i].token == t && Live(entries[i], now);
          assert r[i] == entries[i];
        }
      }
      Ok(r)
  }

  /** Whatever expiry the caller asks for, the stored result is the same. */
  lemma RequestedExpiryIgnored(entries: seq<Entry>, token: Token, x: Time, y: Time, now: Time)
    ensures Create(entries, token, x, now) == Create(entries, token, y, now)
  {
  }

  /** Inserting keeps tokens unique and the clock bound. */
  lemma CreatePreservesInvariants(entries: seq<Entry>, token: Token, x: Time, now: Time)
    requires UniqueTokens(entries, now) && CreatedBy(entries, now)
    requires Create(entries, token, x, now).Ok?
    ensures UniqueTokens(Create(entries, token, x, now).value, now)
    ensures CreatedBy(Create(entries, token, x, now).value, now)
  {
    var r := Create(entries, token, x, now).value;
    forall i, j | 0 <= i < j < |r| && Live(r[i], now) && Live(r[j], now)
      ensures r[i].token != r[j].token
    {
      if j == |entries| {
        assert r[i] == entries[i];
        assert r[j].token == token;
      } else {
        assert r[i] == entries[i] && r[j] == entries[j];
      }
    }
  }

  /** A token blacklisted at `now` is found exactly until fifteen minutes
      later, and no longer, whatever expiry was requested. */
  lemma {:induction false} BlacklistedForFifteenMinutes(entries: seq<Entry>, token: Token, x: Time, now: Time, later: Time)
    requires CreatedBy(entries, now)
    requires Create(entries, token, x, now).Ok?
    requires now <= later
    ensures Contains(Create(entries, token, x, now).value, token, later) <==> later < now + TtlMs
  {
    var r := Create(entries, token, x, now).value;
    assert r[|entries|] == Entry(token, now);
    forall k | 0 <= k < |entries| && entries[k].token == token ensures !Live(entries[k], later) {
      assert !Live(entries[k], now);
    }
    forall k | 0 <= k < |entries| ensures r[k] == entries[k] {
      assert r[..|entries|][k] == r[k];
    }
  }

  /** Time only removes entries: what is found later was found earlier. */
  lemma ContainsShrinksOverTime(entries: seq<Entry>, token: Token, earlier: Time, later: Time)
    requires CreatedBy(entries, earlier) && earlier <= later
    requires Contains(entries, token, later)
    ensures Contains(entries, token, earlier)
  {
  }
}
