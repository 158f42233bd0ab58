/** The message server with its sets, dictionaries and queues updated in place
    (src/agent_augury/core/server.py:209-286, 313-624). */
module MessageServers {
  import opened Tables
  import opened Inbox

  lemma Longer<T>(s: seq<T>, i: nat)
    requires i < |s|
    ensures s[..i + 1][..i] == s[..i] && s[..i + 1][i] == s[i] && |s[..i + 1]| == i + 1
  {}

  lemma Whole<T>(s: seq<T>)
    ensures s[..|s|] == s
  {}

  class MessageServer {
    var agents: set<Id>
    var humans: set<Id>
    var threads: Table<nat, Thread>
    var messages: seq<Message>
    var index: map<nat, Message>
    var inboxes: map<Id, seq<nat>>
    var nextThread: nat
    var nextMessage: nat

    function View(): Server
      reads this
    {
      Server(agents, humans, threads, messages, index, inboxes, nextThread, nextMessage)
    }

    constructor ()
      ensures View() == NEW_SERVER
    {
      agents, humans, threads, messages, index, inboxes := {}, {}, Empty(), [], map[], map[];
      nextThread, nextMessage := 1, 1;
    }

    method RegisterAgent(id: Id) returns (ok: bool)
      modifies this
      ensures (View(), ok) == Register(old(View()), id)
      ensures Sound(old(View())) ==> Sound(View())
      ensures Sound(old(View())) ==>
                forall a :: a in old(inboxes) ==> a in inboxes && inboxes[a] == old(inboxes)[a]
    {
      if IsHumanName(id) { return false; }
      if id in humans { return false; }
      if id in agents { return true; }
      agents := agents + {id};
      inboxes := inboxes[id := []];
      return true;
    }

    /** A registered human may author and be addressed; nobody's queue is touched. */
    method RegisterHumanId(id: Id) returns (ok: bool)
      modifies this
      ensures (View(), ok) == RegisterHuman(old(View()), id)
      ensures Sound(old(View())) ==> Sound(View())
      ensures ok <==> IsHumanName(id)
      ensures ok ==> id in humans && id in inboxes
      ensures forall a :: a in old(inboxes) ==> a in inboxes && inboxes[a] == old(inboxes)[a]
      ensures forall a :: a in inboxes && a !in old(inboxes) ==> a == id && inboxes[a] == []
    {
      if !IsHumanName(id) { return false; }
      humans := humans + {id};
      if id !in inboxes { inboxes := inboxes[id := []]; }
      return true;
    }

    method RegisterEach(ids: seq<Id>) returns (ok: bool)
      modifies this
      ensures (View(), ok) == RegisterAll(old(View()), ids)
    {
      ok := true;
      var i := 0;
      while i < |ids| && ok
        invariant 0 <= i <= |ids|
        invariant (View(), ok) == RegisterAll(old(View()), ids[..i])
        decreases |ids| - i, ok
      {
        Longer(ids, i);
        ok := RegisterAgent(ids[i]);
        i := i + 1;
      }
      if i == |ids| { Whole(ids); } else { Refused(old(View()), ids, i); }
    }

    lemma {:induction false} Refused(s: Server, ids: seq<Id>, i: nat)
      requires i <= |ids| && !RegisterAll(s, ids[..i]).1
      ensures RegisterAll(s, ids) == RegisterAll(s, ids[..i])
      decreases |ids|
    {
      if i < |ids| {
        assert ids[..|ids| - 1][..i] == ids[..i];
        Refused(s, ids[..|ids| - 1], i);
      } else {
        Whole(ids);
      }
    }

    method FindByName(name: string) returns (found: Option<nat>)
      ensures found == ByName(threads.order, threads.at, name)
    {
      var i := 0;
      assert threads.order[0..] == threads.order;
      while i < |threads.order|
        invariant 0 <= i <= |threads.order|
        invariant ByName(threads.order, threads.at, name) == ByName(threads.order[i..], threads.at, name)
      {
        var t := threads.order[i];
        assert threads.order[i..][1..] == threads.order[i + 1..];
        if t in threads.at && threads.at[t].name == name { return Some(t); }
        i := i + 1;
      }
      return None;
    }

    method CreateThread(name: string, participants: seq<Id>, bootstrap: bool) returns (r: Result)
      requires threads.Valid()
      modifies this
      ensures (View(), r) == Inbox.CreateThread(old(View()), name, participants, bootstrap)
    {
      hide Register, RegisterAll, SortedSet, NotIn;
      var found := FindByName(name);
      if found.Some? {
        var t := found.value;
        var existing := if t in threads.at then threads.at[t].participants else [];
        var added := SortedSet(NotIn(participants, existing));
        if added != [] && !bootstrap { added := []; }
        if added != [] {
          var ok := RegisterEach(added);
          if !ok { return Err(ReservedName); }
          threads := threads.Put(t, Thread(name, SortedSet(existing + participants)));
        }
        return Ok(t);
      }
      var ok := RegisterEach(participants);
      if !ok { return Err(ReservedName); }
      var t := nextThread;
      nextThread := nextThread + 1;
      threads := threads.Put(t, Thread(name, participants));
      return Ok(t);
    }

    method Append(topic: Topic, author: Id, content: string, mentions: seq<Id>, targets: seq<Id>) returns (r: Result)
      modifies this
      ensures (View(), r) == Post(old(View()), topic, author, content, mentions, targets)
    {
      var m := Message(nextMessage, topic, author, content, mentions, targets, |messages|);
      nextMessage := nextMessage + 1;
      messages := messages + [m];
      index := index[m.id := m];
      ghost var was := inboxes;
      var i := 0;
      while i < |targets|
        invariant 0 <= i <= |targets|
        invariant inboxes == PushAll(was, targets[..i], m.id)
        invariant View() == old(View()).(messages := messages, index := index, nextMessage := nextMessage,
                                         inboxes := inboxes)
        invariant messages == old(messages) + [m] && index == old(index)[m.id := m]
                  && nextMessage == old(nextMessage) + 1
      {
        Longer(targets, i);
        var t := targets[i];
        if t in inboxes { inboxes := inboxes[t := inboxes[t] + [m.id]]; }
        i := i + 1;
      }
      Whole(targets);
      return Ok(m.id);
    }

    method SendTargets(participants: seq<Id>, author: Id, mentions: seq<Id>) returns (targets: seq<Id>)
      ensures targets == Targets(View(), participants, author, mentions)
    {
      if mentions != [] {
        targets := Among(participants, mentions);
        ghost var start := targets;
        var i := 0;
        while i < |mentions|
          invariant 0 <= i <= |mentions|
          invariant targets == WithHumans(start, humans, mentions[..i])
        {
          Longer(mentions, i);
          var m := mentions[i];
          if m in humans && m !in targets { targets := targets + [m]; }
          i := i + 1;
        }
        Whole(mentions);
      } else {
        targets := Without(participants, author);
      }
    }

    method SendMessage(thread: nat, author: Id, content: string, mentions: seq<Id>) returns (r: Result)
      modifies this
      ensures (View(), r) == Inbox.SendMessage(old(View()), thread, author, content, mentions)
    {
      hide Post, Targets;
      if thread !in threads.at { return Err(NoThread); }
      if author !in agents { return Err(UnknownAuthor); }
      var participants := threads.at[thread].participants;
      if author !in participants { return Err(NotParticipant); }
      var targets := SendTargets(participants, author, mentions);
      r := Append(Thread_(thread), author, content, mentions, targets);
    }

    method HumanSend(thread: nat, author: Id, content: string, mentions: seq<Id>) returns (r: Result)
      modifies this
      ensures (View(), r) == Inbox.HumanSend(old(View()), thread, author, content, mentions)
    {
      hide Post;
      if thread !in threads.at { return Err(NoThread); }
      if author !in humans { return Err(UnknownAuthor); }
      var participants := threads.at[thread].participants;
      var targets := if mentions != [] then Among(participants, mentions) else participants;
      r := Append(Thread_(thread), author, content, mentions, targets);
    }

    method InjectAgentNotice(agent: Id, content: string, author: Id) returns (r: Result)
      modifies this
      ensures (View(), r) == InjectNotice(old(View()), agent, author, content)
    {
      hide Post;
      if agent !in agents && agent !in humans { return Err(NoInbox); }
      r := Append(Notice, author, content, [agent], [agent]);
    }

    method DropInboxFrom(agent: Id, topics: set<Topic>)
      modifies this
      ensures View() == DropFrom(old(View()), agent, topics)
    {
      if agent !in inboxes { return; }
      if topics == {} {
        NothingDropped(inboxes[agent], index);
        assert inboxes[agent := inboxes[agent]] == inboxes;
        return;
      }
      var q, kept: seq<nat> := inboxes[agent], [];
      var i := 0;
      while i < |q|
        invariant 0 <= i <= |q| && View() == old(View())
        invariant kept == Sift(q[..i], index, topics, false)
      {
        Longer(q, i);
        if q[i] !in index || index[q[i]].topic !in topics { kept := kept + [q[i]]; }
        i := i + 1;
      }
      Whole(q);
      inboxes := inboxes[agent := kept];
    }

    method SetThreadParticipants(thread: nat, ids: seq<Id>) returns (r: Result)
      requires threads.Valid()
      modifies this
      ensures (View(), r) == SetParticipants(old(View()), thread, ids)
    {
      hide Register, RegisterAll, SortedSet, NotIn, DropFrom;
      if thread !in threads.at { return Err(NoThread); }
      var was := threads.at[thread];
      var ok := RegisterEach(SortedSet(NotIn(ids, was.participants)));
      if !ok { return Err(ReservedName); }
      DropEach(SortedSet(NotIn(was.participants, ids)), {Thread_(thread)});
      threads := threads.Put(thread, Thread(was.name, ids));
      return Ok(thread);
    }

    method DropEach(removed: seq<Id>, topics: set<Topic>)
      modifies this
      ensures View() == DropAll(old(View()), removed, topics)
    {
      var i := 0;
      while i < |removed|
        invariant 0 <= i <= |removed| && View() == DropAll(old(View()), removed[..i], topics)
      {
        Longer(removed, i);
        DropInboxFrom(removed[i], topics);
        i := i + 1;
      }
      Whole(removed);
    }

    /** The drained messages, oldest first; ids the log does not know are skipped. */
    method DrainInbox(agent: Id) returns (known: bool, out: seq<Message>)
      modifies this
      ensures known <==> agent in old(inboxes)
      ensures View() == Emptied(old(View()), agent)
      ensures known ==>
        var ids := Known(old(inboxes)[agent], index);
        |out| == |ids| && forall k :: 0 <= k < |ids| ==> ids[k] in index && out[k] == index[ids[k]]
    {
      out := [];
      if agent !in inboxes { return false, []; }
      var q := inboxes[agent];
      ghost var ids: seq<nat> := [];
      var i := 0;
      while i < |q|
        invariant 0 <= i <= |q| && View() == old(View())
        invariant ids == Known(q[..i], index) && |out| == |ids|
        invariant forall k :: 0 <= k < |ids| ==> ids[k] in index && out[k] == index[ids[k]]
      {
        Longer(q, i);
        if q[i] in index {
          out := out + [index[q[i]]];
          ids := ids + [q[i]];
        }
        i := i + 1;
      }
      Whole(q);
      inboxes := inboxes[agent := []];
      return true, out;
    }

    /** A copy of every queue, made by draining each one and filling it again: afterwards the
        queues are as before, so the snapshot restores to the same server. */
    method ExportInboxIds() returns (out: map<Id, seq<nat>>)
      modifies this
      ensures View() == old(View()) && out == inboxes
    {
      ghost var was := inboxes;
      out := map[];
      var left := inboxes.Keys;
      while left != {}
        invariant left <= was.Keys && inboxes == was && View() == old(View())
        invariant out.Keys == was.Keys - left && forall a :: a in out ==> out[a] == was[a]
        decreases left
      {
        var a :| a in left;
        left := left - {a};
        var ids := DrainQueue(a);
        FillQueue(a, ids);
        assert inboxes == was;
        out := out[a := ids];
      }
    }

    method DrainQueue(a: Id) returns (ids: seq<nat>)
      requires a in inboxes
      modifies this
      ensures ids == old(inboxes)[a] && View() == old(View()).(inboxes := old(inboxes)[a := []])
    {
      ids := [];
      ghost var q := inboxes[a];
      assert inboxes[a := q] == inboxes;
      while inboxes[a] != []
        invariant a in inboxes && ids + inboxes[a] == q
        invariant View() == old(View()).(inboxes := old(inboxes)[a := inboxes[a]])
        decreases |inboxes[a]|
      {
        ids := ids + [inboxes[a][0]];
        inboxes := inboxes[a := inboxes[a][1..]];
      }
    }

    method FillQueue(a: Id, ids: seq<nat>)
      requires a in inboxes && inboxes[a] == []
      modifies this
      ensures View() == old(View()).(inboxes := old(inboxes)[a := ids])
    {
      var i := 0;
      assert inboxes == inboxes[a := []];
      while i < |ids|
        invariant 0 <= i <= |ids| && a in inboxes
        invariant View() == old(View()).(inboxes := old(inboxes)[a := ids[..i]])
      {
        assert ids[..i] + [ids[i]] == ids[..i + 1];
        inboxes := inboxes[a := inboxes[a] + [ids[i]]];
        i := i + 1;
      }
      Whole(ids);
    }

    method KnownIds(ids: seq<nat>) returns (kept: seq<nat>)
      ensures kept == Known(ids, index)
    {
      kept := [];
      var i := 0;
      while i < |ids|
        invariant 0 <= i <= |ids| && kept == Known(ids[..i], index)
      {
        Longer(ids, i);
        if ids[i] in index { kept := kept + [ids[i]]; }
        i := i + 1;
      }
      Whole(ids);
    }

    method RestoreInboxIds(saved: map<Id, seq<nat>>)
      modifies this
      ensures View() == Restore(old(View()), saved)
    {
      hide Known;
      ghost var was := View();
      var left := saved.Keys;
      assert Restored(was, saved, left, inboxes);
      while left != {}
        invariant left <= saved.Keys
        invariant View() == was.(inboxes := inboxes) && Restored(was, saved, left, inboxes)
        decreases left
      {
        var a :| a in left;
        left := left - {a};
        var kept := KnownIds(saved[a]);
        if a in inboxes { inboxes := inboxes[a := kept]; }
      }
    }

    /** The queues when all saved lists but those in `left` are restored. */
    ghost predicate Restored(s: Server, saved: map<Id, seq<nat>>, left: set<Id>, now: map<Id, seq<nat>>) {
      && now.Keys == s.inboxes.Keys
      && forall a :: a in now ==> now[a] == if a in saved && a !in left then Known(saved[a], s.index) else s.inboxes[a]
    }
  }
}
