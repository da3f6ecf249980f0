/**
 Hash-linked logs: each row names the digest of the row before it. The same linking is
 used by the chronology store, the label vault's audit log and the lifecycle tips. The
 hash is a parameter; where a theorem needs it to be one-to-one, the theorem says which
 two rows would have to collide.
 */
module HashChain {
  import opened Prelude

  type Digest = string

  const GENESIS: Digest := "0000000000000000000000000000000000000000000000000000000000000000"

  /** A row as written: what it is linked to, what it says, and the digest beside it. */
  datatype Row<B> = Row(prev: Digest, body: B, digest: Digest)

  type Hash<!B> = (Digest, B) -> Digest

  function Tip<B>(rows: seq<Row<B>>): Digest {
    if rows == [] then GENESIS else rows[|rows| - 1].digest
  }

  /** Every row continues the one before and carries the digest of its own content. */
  ghost predicate Verified<B>(hash: Hash<B>, rows: seq<Row<B>>) {
    forall i :: 0 <= i < |rows| ==> Links(hash, rows, i)
  }

  ghost predicate Links<B>(hash: Hash<B>, rows: seq<Row<B>>, i: nat)
    requires i < |rows|
  {
    && rows[i].prev == (if i == 0 then GENESIS else rows[i - 1].digest)
    && rows[i].digest == hash(rows[i].prev, rows[i].body)
  }

  function Next<B>(hash: Hash<B>, rows: seq<Row<B>>, body: B): Row<B> {
    Row(Tip(rows), body, hash(Tip(rows), body))
  }

  /** Appending at the tip keeps a log verified. */
  lemma AppendKeepsVerified<B>(hash: Hash<B>, rows: seq<Row<B>>, body: B)
    requires Verified(hash, rows)
    ensures Verified(hash, rows + [Next(hash, rows, body)])
    ensures Tip(rows + [Next(hash, rows, body)]) == hash(Tip(rows), body)
  {
    var after := rows + [Next(hash, rows, body)];
    forall i | 0 <= i < |after|
      ensures Links(hash, after, i)
    {
      if i < |rows| {
        assert Links(hash, rows, i);
      }
    }
  }

  /** A row of one log and a different row of the other with the same digest. */
  ghost predicate Collision<B(!new)>(a: seq<Row<B>>, c: seq<Row<B>>) {
    exists x, y :: x in a && y in c && x.digest == y.digest && (x.prev != y.prev || x.body != y.body)
  }

  /** A row whose digest is the genesis value. */
  ghost predicate HitsGenesis<B(!new)>(rows: seq<Row<B>>) {
    exists x :: x in rows && x.digest == GENESIS
  }

  lemma VerifiedFront<B>(hash: Hash<B>, rows: seq<Row<B>>)
    requires rows != [] && Verified(hash, rows)
    ensures Verified(hash, rows[..|rows| - 1]) && Tip(rows[..|rows| - 1]) == rows[|rows| - 1].prev
  {
    var front := rows[..|rows| - 1];
    assert Links(hash, rows, |rows| - 1);
    forall i | 0 <= i < |front|
      ensures Links(hash, front, i)
    {
      assert Links(hash, rows, i);
    }
  }

  /** A verified log is determined by its tip: two logs with the same tip are the same
      log, or show a collision or a preimage of the genesis value. */
  lemma {:induction false} TipDeterminesLog<B(!new)>(hash: Hash<B>, a: seq<Row<B>>, c: seq<Row<B>>)
    requires Verified(hash, a) && Verified(hash, c) && Tip(a) == Tip(c)
    ensures a == c || Collision(a, c) || HitsGenesis(a) || HitsGenesis(c)
  {
    if a == [] {
      TipOfNothing(c);
    } else if c == [] {
      TipOfNothing(a);
    } else {
      LastRows(hash, a, c);
      var x, y := a[|a| - 1], c[|c| - 1];
      if x.prev == y.prev && x.body == y.body {
        var f, g := a[..|a| - 1], c[..|c| - 1];
        TipDeterminesLog(hash, f, g);
        CollisionGrows(a, c);
        assert a == f + [x] && c == g + [y];
      }
    }
  }

  lemma TipOfNothing<B(!new)>(a: seq<Row<B>>)
    requires Tip(a) == GENESIS
    ensures a == [] || HitsGenesis(a)
  {
    if a != [] {
      assert a[|a| - 1] in a;
    }
  }

  /** Under one tip the last rows are the same, or collide; and then so are their fronts. */
  lemma LastRows<B(!new)>(hash: Hash<B>, a: seq<Row<B>>, c: seq<Row<B>>)
    requires Verified(hash, a) && Verified(hash, c) && Tip(a) == Tip(c) && a != [] && c != []
    ensures var x, y := a[|a| - 1], c[|c| - 1];
      if x.prev == y.prev && x.body == y.body then
        && x == y && Verified(hash, a[..|a| - 1]) && Verified(hash, c[..|c| - 1])
        && Tip(a[..|a| - 1]) == Tip(c[..|c| - 1])
      else Collision(a, c)
  {
    assert a[|a| - 1] in a && c[|c| - 1] in c;
    VerifiedFront(hash, a);
    VerifiedFront(hash, c);
  }

  lemma CollisionGrows<B(!new)>(a: seq<Row<B>>, c: seq<Row<B>>)
    requires a != [] && c != []
    ensures Collision(a[..|a| - 1], c[..|c| - 1]) ==> Collision(a, c)
    ensures HitsGenesis(a[..|a| - 1]) ==> HitsGenesis(a)
    ensures HitsGenesis(c[..|c| - 1]) ==> HitsGenesis(c)
  {
    assert forall x :: x in a[..|a| - 1] ==> x in a;
    assert forall y :: y in c[..|c| - 1] ==> y in c;
  }

  /** Cutting rows off the end leaves a log that still verifies: only the tip kept
      beside it can tell. */
  lemma {:induction false} TruncationVerifies<B>(hash: Hash<B>, rows: seq<Row<B>>, n: nat)
    requires Verified(hash, rows) && n <= |rows|
    ensures Verified(hash, rows[..n])
    decreases |rows|
  {
    if n < |rows| {
      VerifiedFront(hash, rows);
      TruncationVerifies(hash, rows[..|rows| - 1], n);
      assert rows[..|rows| - 1][..n] == rows[..n];
    } else {
      assert rows[..n] == rows;
    }
  }

  /** And a writer that still holds the old tip breaks the shortened log. */
  lemma AppendAfterTruncationBreaks<B>(hash: Hash<B>, rows: seq<Row<B>>, n: nat, body: B)
    requires n < |rows| && Tip(rows) != Tip(rows[..n])
    ensures !Verified(hash, rows[..n] + [Row(Tip(rows), body, hash(Tip(rows), body))])
  {
    var after := rows[..n] + [Row(Tip(rows), body, hash(Tip(rows), body))];
    assert after[n].prev == Tip(rows);
    assert n > 0 ==> after[n - 1] == rows[..n][n - 1];
    assert !Links(hash, after, n);
  }

  /** Changing any row of a verified log, so that it verifies again under the same tip,
      takes a collision. */
  lemma TamperingNeedsCollision<B(!new)>(hash: Hash<B>, rows: seq<Row<B>>, i: nat, forged: seq<Row<B>>)
    requires Verified(hash, rows) && Verified(hash, forged) && Tip(rows) == Tip(forged)
    requires i < |rows| && i < |forged| && rows[i] != forged[i]
    ensures Collision(rows, forged) || HitsGenesis(rows) || HitsGenesis(forged)
  {
    TipDeterminesLog(hash, rows, forged);
  }

  // ---------------------------------------------------------------- the two verifiers

  datatype AuditError = PrevMismatch(at: nat) | DigestMismatch(at: nat)

  datatype ChainError = Broken(at: nat) | Tampered(at: nat)

  /** AppendOnlyChronologyStore.events: the first bad row raises. */
  method ReadEvents<B>(hash: Hash<B>, rows: seq<Row<B>>) returns (r: Result<seq<Row<B>>, ChainError>)
    ensures r.Ok? <==> Verified(hash, rows)
    ensures r.Ok? ==> r.value == rows
    ensures r.Err? ==> r.error.at < |rows| && Verified(hash, rows[..r.error.at]) && !Links(hash, rows, r.error.at)
  {
    var prev := GENESIS;
    for i := 0 to |rows|
      invariant prev == Tip(rows[..i])
      invariant forall j :: 0 <= j < i ==> Links(hash, rows, j)
    {
      assert forall j :: 0 <= j < i ==> Links(hash, rows, j) && Links(hash, rows[..i], j);
      assert i > 0 ==> rows[..i][i - 1] == rows[i - 1];
      if rows[i].prev != prev {
        assert !Links(hash, rows, i);
        return Err(Broken(i));
      }
      if rows[i].digest != hash(rows[i].prev, rows[i].body) {
        assert !Links(hash, rows, i);
        return Err(Tampered(i));
      }
      prev := rows[i].digest;
    }
    return Ok(rows);
  }

  /** No content hashes to the empty text. */
  ghost predicate NeverEmpty<B(!new)>(hash: Hash<B>) {
    forall prev, body :: hash(prev, body) != ""
  }

  /** LabelVault.verify_audit_chain: every mismatch is listed; a row without a digest
      leaves the expected link where it was. The list is empty exactly for a verified log. */
  method VerifyAuditChain<B(!new)>(hash: Hash<B>, rows: seq<Row<B>>) returns (errors: seq<AuditError>)
    requires NeverEmpty(hash)
    ensures errors == [] <==> Verified(hash, rows)
  {
    errors := [];
    var prev := GENESIS;
    for i := 0 to |rows|
      invariant errors == [] <==> forall j :: 0 <= j < i ==> Links(hash, rows, j)
      invariant errors == [] ==> prev == Tip(rows[..i])
    {
      ghost var before := errors;
      assert i > 0 ==> rows[..i][i - 1] == rows[i - 1];
      if rows[i].prev != prev {
        errors := errors + [PrevMismatch(i)];
      }
      if hash(rows[i].prev, rows[i].body) != rows[i].digest {
        errors := errors + [DigestMismatch(i)];
      }
      assert before == [] ==> (errors == [] <==> Links(hash, rows, i));
      prev := if rows[i].digest == "" then prev else rows[i].digest;
    }
  }
}
