/** The approval store with its table updated in place
    (src/agent_augury/core/agent/approval.py:221-382). */
module ApprovalStores {
  import opened Tables
  import opened StableJson
  import opened Approvals

  lemma FirstLiveStep(order: seq<string>, at: map<string, Token>, i: nat, agent: string, tool: string, digest: string,
                      now: real)
    requires i < |order|
    ensures FirstLive(order[i..], at, agent, tool, digest, now)
         == if order[i] in at && Live(at[order[i]], now) && ForCall(at[order[i]], agent, tool, digest)
             then Some(order[i])
            else FirstLive(order[i + 1..], at, agent, tool, digest, now)
  {
    assert order[i..][1..] == order[i + 1..];
  }

  lemma Longer<T>(s: seq<T>, i: nat)
    requires i < |s|
    ensures s[..i + 1][..i] == s[..i] && s[..i + 1][i] == s[i] && |s[..i + 1]| == i + 1
  {}

  class ApprovalStore {
    var byId: Store
    const h: Hash

    constructor (h: Hash)
      ensures byId == Empty() && this.h == h
    {
      this.h := h;
      byId := Empty();
    }

    method FindPending(agent: string, tool: string, digest: string, now: real) returns (found: Option<string>)
      requires byId.Valid()
      ensures found == FirstLive(byId.order, byId.at, agent, tool, digest, now)
    {
      var i := 0;
      assert byId.order[0..] == byId.order;
      while i < |byId.order|
        invariant 0 <= i <= |byId.order|
        invariant FirstLive(byId.order, byId.at, agent, tool, digest, now)
                  == FirstLive(byId.order[i..], byId.at, agent, tool, digest, now)
      {
        FirstLiveStep(byId.order, byId.at, i, agent, tool, digest, now);
        assert byId.order[i] in byId.order;
        var t := byId.at[byId.order[i]];
        if t.state.Pending? && t.agent == agent && t.tool == tool && t.digest == digest && t.expires > now {
          return Some(byId.order[i]);
        }
        i := i + 1;
      }
      return None;
    }

    method RequestOrJoin(agent: string, tool: string, args: Json, ttl: real, now: real, newId: string)
        returns (id: string, created: bool)
      requires byId.Valid()
      modifies this
      ensures byId.Valid()
      ensures (byId, id, created) == Approvals.RequestOrJoin(old(byId), agent, tool, args, ttl, now, newId, h)
    {
      var digest := Fingerprint(h, tool, args);
      var existing := FindPending(agent, tool, digest, now);
      if existing.Some? { return existing.value, false; }
      var t := Token(agent, tool, digest, Norm(args), now, now + MaxReal(1.0, ttl), Pending, None);
      byId.PutValid(newId, t);
      byId := byId.Put(newId, t);
      return newId, true;
    }

    method Resolve(id: string, grant: bool, reason: Option<string>, now: real) returns (reply: Reply)
      requires byId.Valid()
      modifies this
      ensures byId.Valid() && (byId, reply) == Approvals.Resolve(old(byId), id, grant, reason, now)
    {
      if id !in byId.at { return Unknown; }
      var t := byId.at[id];
      if t.state.Pending? && t.expires <= now {
        byId := byId.Put(id, t.(state := Expired, reason := Some("expired")));
        return HasExpired;
      }
      if !t.state.Pending? { return NotPending(t.state); }
      t := t.(state := if grant then Granted else Denied);
      t := t.(reason := Or(reason, if grant then None else Some("user")));
      byId := byId.Put(id, t);
      return Settled(t);
    }

    method ExpireDue(now: real) returns (expired: seq<string>)
      requires byId.Valid()
      modifies this
      ensures byId.Valid() && (byId, expired) == Approvals.ExpireDue(old(byId), old(byId).order, now)
    {
      ghost var was := byId;
      var ids := byId.order;
      expired := [];
      var i := 0;
      while i < |ids|
        invariant 0 <= i <= |ids| && byId.Valid()
        invariant (byId, expired) == Approvals.ExpireDue(was, ids[..i], now)
      {
        Longer(ids, i);
        var id := ids[i];
        if id in byId.at && byId.at[id].state.Pending? && byId.at[id].expires <= now {
          byId.PutValid(id, Overdue(byId.at[id]));
          byId := byId.Put(id, byId.at[id].(state := Expired, reason := Some("expired")));
          expired := expired + [id];
        }
        i := i + 1;
      }
      assert ids[..i] == ids;
    }

    method MarkExecuted(id: string) returns (ok: bool)
      requires byId.Valid()
      modifies this
      ensures byId.Valid() && byId == Approvals.MarkExecuted(old(byId), id)
      ensures ok <==> id in old(byId).at && old(byId).at[id].state.Granted?
    {
      if id !in byId.at || !byId.at[id].state.Granted? { return false; }
      byId := byId.Put(id, byId.at[id].(state := Executed));
      return true;
    }

    method ExportPending(now: real) returns (out: seq<Raw>)
      requires byId.Valid()
      ensures out == Export(byId.order, byId.at, now)
    {
      out := [];
      var i := 0;
      while i < |byId.order|
        invariant 0 <= i <= |byId.order|
        invariant out == Export(byId.order[..i], byId.at, now)
      {
        Longer(byId.order, i);
        var id := byId.order[i];
        assert id in byId.order;
        var t := byId.at[id];
        if t.state.Pending? && !(t.expires <= now) { out := out + [AsRaw(id, t)]; }
        i := i + 1;
      }
      assert byId.order[..i] == byId.order;
    }

    method ImportPending(records: seq<Raw>, now: real) returns (alive: seq<string>, expired: seq<string>)
      requires byId.Valid()
      modifies this
      ensures byId.Valid() && (byId, alive, expired) == Import(old(byId), records, now)
    {
      ghost var was := byId;
      alive, expired := [], [];
      var i := 0;
      while i < |records|
        invariant 0 <= i <= |records| && byId.Valid()
        invariant (byId, alive, expired) == Import(was, records[..i], now)
      {
        Longer(records, i);
        var r := records[i];
        if r.Raw? {
          byId.PutValid(r.id, Restored(r, now));
          var t := Token(r.agent, r.tool, r.digest, r.args, OrNow(r.created, now), OrNow(r.expires, now), Pending,
                         r.reason);
          if t.expires <= now {
            byId := byId.Put(r.id, t.(state := Expired, reason := Some("expired")));
            expired := expired + [r.id];
          } else {
            byId := byId.Put(r.id, t);
            alive := alive + [r.id];
          }
        }
        i := i + 1;
      }
      assert records[..i] == records;
    }
  }
}
