/** The connection registry: a map from handles to connections that
    `insert` extends under a freshly minted handle. The read-write lock
    and the `async` plumbing around the map are not modelled; every
    operation runs to completion on its own. */
module WebSocketStates {
  import opened Handles
  import opened Errors

  /** `tide_websockets::WebSocketConnection`, held by the registry and
      never inspected by it. */
  type Connection

  /** A `std::time::Duration`, counted in nanoseconds. */
  type Duration = nat

  /** The freshness assumption on the handle generator: no handle is ever
      drawn twice. The registry itself never checks it. */
  ghost predicate Injective(rng: nat -> Handle)
  {
    forall i, j :: rng(i) == rng(j) ==> i == j
  }

  /** `BTreeMap::insert` on the value of the map: the key is added, or
      its old value replaced, and every other entry is kept. */
  function Inserted(m: map<Handle, Connection>, h: Handle, c: Connection)
    : (r: map<Handle, Connection>)
    ensures r.Keys == m.Keys + {h}
    ensures h in r && r[h] == c
    ensures forall k :: k in m && k != h ==> k in r && r[k] == m[k]
  {
    m[h := c]
  }

  /** Inserting under a key that is not present grows the map by one. */
  lemma InsertedFreshGrows(m: map<Handle, Connection>, h: Handle, c: Connection)
    requires h !in m
    ensures |Inserted(m, h, c)| == |m| + 1
  {
  }

  /** Inserting under a key that is present replaces its connection and
      keeps the size and the key set. */
  lemma InsertedCollisionReplaces(m: map<Handle, Connection>, h: Handle, c: Connection)
    requires h in m
    ensures |Inserted(m, h, c)| == |m|
    ensures Inserted(m, h, c).Keys == m.Keys
  {
  }

  /** `WebSocketState`. The value the source wraps in `Arc<RwLock<…>>` is
      the field `entries`; cloning the state shares it, which is what
      sharing one object reference does here. Handles come from `rng`,
      the sequence of UUIDs the random generator yields, of which `draws`
      have been taken so far. */
  class WebSocketState {
    const rng: nat -> Handle
    var draws: nat
    var entries: map<Handle, Connection>

    /** `h` is one of the handles drawn so far. */
    ghost predicate Drawn(h: Handle)
      reads this
    {
      exists i :: 0 <= i < draws && rng(i) == h
    }

    /** Every key was minted by this state, and while the generator never
        repeats itself no insert has overwritten another: there is one
        entry per insert. */
    ghost predicate Valid()
      reads this
    {
      && (forall h :: h in entries ==> Drawn(h))
      && (Injective(rng) ==> |entries| == draws)
    }

    /** `Default::default`: an empty map. */
    constructor Default(rng: nat -> Handle)
      ensures Valid()
      ensures entries == map[]
      ensures this.rng == rng && draws == 0
    {
      this.rng := rng;
      draws := 0;
      entries := map[];
    }

    /** `WebSocketState::new`, which defers to `default`. */
    static method New(rng: nat -> Handle) returns (s: WebSocketState)
      ensures fresh(s) && s.Valid()
      ensures s.entries == map[]
      ensures s.rng == rng && s.draws == 0
    {
      s := new WebSocketState.Default(rng);
    }

    /** `Clone` of the `Arc`: the clone is the same shared state. */
    method Clone() returns (c: WebSocketState)
      ensures c == this
    {
      c := this;
    }

    /** `insert`: mint a handle, store the connection under it (replacing
        whatever the handle named before) and return the handle. */
    method Insert(conn: Connection) returns (h: Handle)
      requires Valid()
      modifies this
      ensures Valid()
      ensures h == rng(old(draws)) && draws == old(draws) + 1
      ensures entries == Inserted(old(entries), h, conn)
      ensures h in entries && entries[h] == conn
      ensures old(h in entries) ==> |entries| == old(|entries|)
      ensures old(h !in entries) ==> |entries| == old(|entries|) + 1
      ensures Injective(rng) ==> h !in old(entries)
    {
      h := rng(draws);
      if Injective(rng) && h in entries {
        assert false;
      }
      if h in entries {
        InsertedCollisionReplaces(entries, h, conn);
      } else {
        InsertedFreshGrows(entries, h, conn);
      }
      entries := Inserted(entries, h, conn);
      draws := draws + 1;
      assert rng(draws - 1) == h;
      forall k | k in entries
        ensures Drawn(k)
      {
        if k != h {
          assert old(Drawn(k));
          var i :| 0 <= i < old(draws) && rng(i) == k;
          assert 0 <= i < draws;
        }
      }
    }

    /** `send_all_string`: as written it returns `Ok(())` without looking
        at its arguments or the map; having no `modifies` clause, it
        changes nothing. */
    method SendAllString(handle: Handle, msg: string, timeout: Duration)
      returns (r: Result<()>)
      ensures r == Ok(())
    {
      r := Ok(());
    }
  }

  /** Clones share one map: a connection inserted through a clone is
      found through the original under the returned handle. */
  method InsertThroughClone(s: WebSocketState, conn: Connection) returns (h: Handle)
    requires s.Valid()
    modifies s
    ensures s.Valid()
    ensures h in s.entries && s.entries[h] == conn
    ensures s.entries == Inserted(old(s.entries), h, conn)
  {
    var c := s.Clone();
    h := c.Insert(conn);
  }
}
