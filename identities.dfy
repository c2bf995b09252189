/** The identity rows that link a user to an external `(extern_uid,
    provider)` pair, as `current_user.identities.find_or_create_by` sees
    them: a table in one thread, rows in creation order. */
module Identities {

  type UserId = nat

  datatype Identity = Identity(user: UserId, externUid: string, provider: string)

  /** No row appears twice: at most one link per user, uid and provider. */
  ghost predicate NoDuplicates(rows: seq<Identity>) {
    forall i, j :: 0 <= i < j < |rows| ==> rows[i] != rows[j]
  }

  /** How many rows equal `key`. */
  function Count(rows: seq<Identity>, key: Identity): (n: nat)
    ensures n <= |rows|
    ensures n > 0 <==> key in rows
  {
    if |rows| == 0 then 0
    else (if rows[0] == key then 1 else 0) + Count(rows[1..], key)
  }

  /** `find_or_create_by(key)`: an existing row is found and nothing changes;
      otherwise one row is created at the end. */
  function FindOrCreate(rows: seq<Identity>, key: Identity): (r: seq<Identity>)
    ensures key in r
    ensures rows <= r && |r| <= |rows| + 1
    ensures forall x :: x in r ==> x in rows || x == key
  {
    if key in rows then rows else rows + [key]
  }

  lemma {:induction false} CountSnoc(rows: seq<Identity>, x: Identity, key: Identity)
    ensures Count(rows + [x], key) == Count(rows, key) + (if x == key then 1 else 0)
  {
    if |rows| > 0 {
      assert (rows + [x])[1..] == rows[1..] + [x];
      CountSnoc(rows[1..], x, key);
    }
  }

  lemma {:induction false} NoDuplicatesCountAtMostOne(rows: seq<Identity>, key: Identity)
    requires NoDuplicates(rows)
    ensures Count(rows, key) <= 1
  {
    if |rows| > 0 {
      var rest := rows[1..];
      assert NoDuplicates(rest) by {
        forall i, j | 0 <= i < j < |rest| ensures rest[i] != rest[j] {
          assert rest[i] == rows[i + 1] && rest[j] == rows[j + 1];
        }
      }
      NoDuplicatesCountAtMostOne(rest, key);
      if rows[0] == key {
        assert key !in rest by {
          forall j | 0 <= j < |rest| ensures rest[j] != key {
            assert rest[j] == rows[j + 1];
          }
        }
      }
    }
  }

  /** After find-or-create the key is there once more if it was missing and
      as often as before otherwise; every other key keeps its count, and all
      earlier rows keep their place. */
  lemma FindOrCreateCounts(rows: seq<Identity>, key: Identity, other: Identity)
    ensures Count(FindOrCreate(rows, key), key) == if key in rows then Count(rows, key) else 1
    ensures other != key ==> Count(FindOrCreate(rows, key), other) == Count(rows, other)
    ensures rows <= FindOrCreate(rows, key)
  {
    if key !in rows {
      CountSnoc(rows, key, key);
      CountSnoc(rows, key, other);
    }
  }

  /** Find-or-create never introduces a duplicate row. */
  lemma FindOrCreateKeepsNoDuplicates(rows: seq<Identity>, key: Identity)
    requires NoDuplicates(rows)
    ensures NoDuplicates(FindOrCreate(rows, key))
  {
  }

  /** Repeating find-or-create with the same key changes nothing more, and
      on a duplicate-free table the key is there exactly once. */
  lemma FindOrCreateIdempotent(rows: seq<Identity>, key: Identity)
    ensures FindOrCreate(FindOrCreate(rows, key), key) == FindOrCreate(rows, key)
    ensures NoDuplicates(rows) ==> Count(FindOrCreate(FindOrCreate(rows, key), key), key) == 1
  {
    if NoDuplicates(rows) {
      FindOrCreateCounts(rows, key, key);
      NoDuplicatesCountAtMostOne(rows, key);
    }
  }
}
