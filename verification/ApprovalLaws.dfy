/** What the approval store's calls return, told by the tokens alone
    (src/agent_augury/core/agent/approval.py:221-382). */
module ApprovalLaws {
  import opened Tables
  import opened StableJson
  import opened Approvals

  // ---- Normal arguments ---------------------------------------------------------------------------------

  /** A text's normal form is the text with every backslash as a slash, and, if it is longer than one
      character, without the slashes at its end. */
  lemma NormTextLaw(s: Str)
    ensures var r := NormText(s);
            && |r| <= |s|
            && (forall i :: 0 <= i < |r| ==> r[i] == if s[i] == 92 then 47 else s[i])
            && (forall i :: |r| <= i < |s| ==> s[i] == 47 || s[i] == 92)
            && (|s| <= 1 ==> |r| == |s|)
            && (|s| > 1 && r != [] ==> r[|r| - 1] != 47)
  {
    var cleaned := Slashed(s);
    RStripSlashEnds(cleaned);
    StrippedSlashes(cleaned);
    assert forall i :: 0 <= i < |s| ==> cleaned[i] == if s[i] == 92 then 47 else s[i];
    forall i | |NormText(s)| <= i < |s| ensures s[i] == 47 || s[i] == 92 { assert cleaned[i] == 47; }
    if 47 !in s && 92 !in s { assert |s| > 1 ==> s[|s| - 1] in s; }
  }

  lemma {:induction false} StrippedSlashes(s: Str)
    ensures forall i :: |RStripSlash(s)| <= i < |s| ==> s[i] == 47
    decreases |s|
  {
    if s != [] && s[|s| - 1] == 47 {
      var front := s[..|s| - 1];
      StrippedSlashes(front);
      assert forall i :: 0 <= i < |front| ==> s[i] == front[i];
    }
  }

  /** A tree's normal form has the same shape: each text in its normal form, lists item by item, objects
      with the same keys in order and each value in its normal form, and everything else as it is. */
  lemma NormLaw(v: Json)
    requires Wf(v)
    ensures match v
            case Text(s) => Norm(v) == Text(NormText(s))
            case Arr(items) =>
              && Norm(v).Arr? && |Norm(v).items| == |items|
              && forall i :: 0 <= i < |items| ==> Norm(v).items[i] == Norm(items[i])
            case Obj(fields) =>
              && Norm(v).Obj? && Sorted(Norm(v).fields)
              && (forall i :: 0 <= i < |fields| ==> Entry(fields[i].key, Norm(fields[i].value)) in Norm(v).fields)
              && (forall e :: e in Norm(v).fields ==>
                    exists i :: 0 <= i < |fields| && e == Entry(fields[i].key, Norm(fields[i].value)))
            case _ => Norm(v) == v
  {
    if v.Arr? {
      forall i | 0 <= i < |v.items| ensures NormAll(v.items)[i] == Norm(v.items[i]) { NormAllAt(v.items, i); }
    } else if v.Obj? {
      var f, g := v.fields, NormFields(v.fields);
      forall i | 0 <= i < |f| ensures g[i] == Entry(f[i].key, Norm(f[i].value)) { NormFieldsAt(f, i); }
      SortByKeyCorrect(g);
      forall i | 0 <= i < |f| ensures Entry(f[i].key, Norm(f[i].value)) in g { assert g[i] in g; }
    }
  }

  // ---- Requests ------------------------------------------------------------------------------------------

  /** Token id waits for this very call, and its deadline lies after `now`. */
  ghost predicate WaitsAt(s: Store, id: string, agent: string, tool: string, digest: string, now: real) {
    && id in s.at && s.at[id].state == Pending && s.at[id].expires > now
    && s.at[id].agent == agent && s.at[id].tool == tool && s.at[id].digest == digest
  }

  lemma {:induction false} FirstLiveLaw(order: seq<string>, at: map<string, Token>, agent: string, tool: string,
                                        digest: string, now: real)
    ensures var r := FirstLive(order, at, agent, tool, digest, now);
            var s := Table(order, at);
            && (r == None ==> forall i :: 0 <= i < |order| ==> !WaitsAt(s, order[i], agent, tool, digest, now))
            && (r != None ==> exists i ::
                  && 0 <= i < |order| && order[i] == r.value && WaitsAt(s, r.value, agent, tool, digest, now)
                  && forall j :: 0 <= j < i ==> !WaitsAt(s, order[j], agent, tool, digest, now))
    decreases |order|
  {
    var s := Table(order, at);
    if order != [] {
      if WaitsAt(s, order[0], agent, tool, digest, now) {
        assert order[0] in order;
      } else {
        FirstLiveLaw(order[1..], at, agent, tool, digest, now);
        var rest, r := Table(order[1..], at), FirstLive(order[1..], at, agent, tool, digest, now);
        assert forall i :: 0 < i < |order| ==> order[i] == order[1..][i - 1];
        assert forall id :: WaitsAt(rest, id, agent, tool, digest, now) == WaitsAt(s, id, agent, tool, digest, now);
        if r != None {
          var i :| && 0 <= i < |order[1..]| && order[1..][i] == r.value
                   && forall j :: 0 <= j < i ==> !WaitsAt(rest, order[1..][j], agent, tool, digest, now);
          forall j | 0 <= j < i + 1 ensures !WaitsAt(s, order[j], agent, tool, digest, now) {
            if j > 0 { assert order[j] == order[1..][j - 1]; }
          }
          assert order[i + 1] == r.value;
        }
      }
    }
  }

  /** A request joins the earliest token that still waits for its call and changes nothing; if there is
      none it adds a pending one, last, that holds the normal arguments and lives for the time asked,
      at least a second. */
  lemma RequestLaw(s: Store, agent: string, tool: string, args: Json, ttl: real, now: real, id: string, h: Hash)
    requires s.Valid() && id !in s.at
    ensures var (s', got, added) := RequestOrJoin(s, agent, tool, args, ttl, now, id, h);
            var digest := h(tool, Norm(args));
            && (!added ==>
                  && s' == s && WaitsAt(s, got, agent, tool, digest, now)
                  && exists i :: && 0 <= i < |s.order| && s.order[i] == got
                                 && forall j :: 0 <= j < i ==> !WaitsAt(s, s.order[j], agent, tool, digest, now))
            && (added ==>
                  && got == id && (forall x :: !WaitsAt(s, x, agent, tool, digest, now))
                  && s'.order == s.order + [id] && s'.at.Keys == s.at.Keys + {id}
                  && (forall x :: x in s.at ==> s'.at[x] == s.at[x])
                  && var t := s'.at[id];
                  && t.agent == agent && t.tool == tool && t.digest == digest && t.args == Norm(args)
                  && t.created == now && t.expires == now + (if ttl < 1.0 then 1.0 else ttl)
                  && t.state == Pending && t.reason == None)
  {
    FirstLiveLaw(s.order, s.at, agent, tool, h(tool, Norm(args)), now);
    assert s == Table(s.order, s.at);
    hide Norm;
  }

  // ---- Answers and the timer -----------------------------------------------------------------------------

  /** What an answer to a token is told: that there is none, that it is overdue, that it is settled
      already and how, or the token as it now is. */
  lemma ReplyLaw(s: Store, id: string, grant: bool, reason: Option<string>, now: real)
    ensures var (s', reply) := Resolve(s, id, grant, reason, now);
            && (reply == Unknown <==> id !in s.at)
            && (reply == HasExpired <==> id in s.at && s.at[id].state == Pending && s.at[id].expires <= now)
            && (id in s.at && s.at[id].state != Pending ==> reply == NotPending(s.at[id].state) && s' == s)
            && (id in s.at && s.at[id].state == Pending && s.at[id].expires > now ==>
                  id in s'.at && reply == Settled(s'.at[id]))
  {}

  /** Found overdue: pending, with a deadline not after `now`. */
  ghost predicate Overdue_(s: Store, id: string, now: real) {
    id in s.at && s.at[id].state == Pending && s.at[id].expires <= now
  }

  /** The timer reports exactly the overdue tokens, each once, in the order they were made. */
  lemma {:induction false} ExpireDueLaw(s: Store, ids: seq<string>, now: real, k: nat)
    requires s.Valid() && Distinct(ids)
    ensures var out := ExpireDue(s, ids, now).1;
            && Distinct(out) && (forall x :: x in out <==> x in ids && Overdue_(s, x, now))
            && (k <= |ids| ==> ExpireDue(s, ids[..k], now).1 <= out)
    decreases |ids|
  {
    if ids != [] {
      var front, last := ids[..|ids| - 1], ids[|ids| - 1];
      assert ids == front + [last] && forall i :: 0 <= i < |front| ==> front[i] == ids[i];
      ExpireDueLaw(s, front, now, k);
      ExpireDueAt(s, front, now, last);
      assert last !in front;
      if k <= |front| { assert ids[..k] == front[..k]; } else { assert k == |ids| ==> ids[..k] == ids; }
    }
  }

  /** What is saved: exactly the tokens still waiting, in the order they were made, with all their fields. */
  lemma {:induction false} ExportLaw(ids: seq<string>, at: map<string, Token>, now: real, k: nat)
    requires Distinct(ids) && forall id :: id in ids ==> id in at
    ensures var out := Export(ids, at, now);
            && (forall i :: 0 <= i < |out| ==>
                  && out[i].Raw? && out[i].id in ids && at[out[i].id].state == Pending && at[out[i].id].expires > now
                  && out[i].agent == at[out[i].id].agent && out[i].tool == at[out[i].id].tool
                  && out[i].digest == at[out[i].id].digest && out[i].args == at[out[i].id].args
                  && out[i].created == at[out[i].id].created && out[i].expires == at[out[i].id].expires
                  && out[i].reason == at[out[i].id].reason)
            && (forall id :: id in ids && at[id].state == Pending && at[id].expires > now ==>
                  exists i :: 0 <= i < |out| && out[i].Raw? && out[i].id == id)
            && (k <= |ids| ==> Export(ids[..k], at, now) <= out)
    decreases |ids|
  {
    if ids != [] {
      var front, last := ids[..|ids| - 1], ids[|ids| - 1];
      assert ids == front + [last];
      ExportLaw(front, at, now, k);
      var before, out := Export(front, at, now), Export(ids, at, now);
      assert forall i :: 0 <= i < |before| ==> out[i] == before[i];
      forall id | id in ids && at[id].state == Pending && at[id].expires > now
        ensures exists i :: 0 <= i < |out| && out[i].Raw? && out[i].id == id
      {
        if id in front {
          var i :| 0 <= i < |before| && before[i].Raw? && before[i].id == id;
          assert out[i].id == id;
        } else {
          assert out[|before|] == AsRaw(last, at[last]);
        }
      }
      if k <= |front| { assert ids[..k] == front[..k]; } else { assert k == |ids| ==> ids[..k] == ids; }
    }
  }

  /** The token that a record stands for: a missing time is the time of the reading, and one that is
      then overdue comes back expired. */
  ghost predicate StandsFor(t: Token, r: Raw, now: real)
    requires r.Raw?
  {
    && t.agent == r.agent && t.tool == r.tool && t.digest == r.digest && t.args == r.args
    && t.created == (if r.created == 0.0 then now else r.created)
    && t.expires == (if r.expires == 0.0 then now else r.expires)
    && if t.expires > now then t.state == Pending && t.reason == r.reason
       else t.state == Expired && t.reason == Some("expired")
  }

  /** Reading a record puts its token in the place of its id, and reports it as waiting or as expired;
      a malformed one changes nothing. */
  lemma ImportLaw(s: Store, records: seq<Raw>, r: Raw, now: real)
    ensures var (s0, alive0, expired0) := Import(s, records, now);
            var (s', alive, expired) := Import(s, records + [r], now);
            if r == Malformed then (s', alive, expired) == (s0, alive0, expired0)
            else
              && s'.at.Keys == s0.at.Keys + {r.id} && (forall x :: x in s0.at && x != r.id ==> s'.at[x] == s0.at[x])
              && s'.order == (if r.id in s0.at then s0.order else s0.order + [r.id])
              && StandsFor(s'.at[r.id], r, now)
              && (if s'.at[r.id].state == Pending then alive == alive0 + [r.id] && expired == expired0
                  else alive == alive0 && expired == expired0 + [r.id])
  {
    assert (records + [r])[..|records|] == records;
  }
}
