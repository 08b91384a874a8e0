/** Mailer.Deliver: one delivery job per user, enqueued directly on the queue,
    and one "queued" message row per job, written inside a transaction. */
module Mailer {

  datatype User = User(guid: string, email: string)

  /** `common` stands for what all deliveries of one request share: options, space, organization, client, scope. */
  datatype Delivery = Delivery(common: string, user: User, messageID: string)

  datatype Response = Response(status: string, notificationID: string, recipient: string)

  const QUEUED := "queued"

  type Jobs = map<string, Delivery>

  // ---------------------------------------------------------------- specification

  /** jobsByMessageID: a GUID that comes twice keeps the later user only. */
  function JobsFor(users: seq<User>, guids: seq<string>, common: string): Jobs
    requires |users| == |guids|
  {
    if users == [] then map[]
    else
      var n := |users| - 1;
      JobsFor(users[..n], guids[..n], common)[guids[n] := Delivery(common, users[n], guids[n])]
  }

  function Answer(user: User, guid: string): Response {
    Response(QUEUED, guid, if user.email == "" then user.guid else user.email)
  }

  function Answers(users: seq<User>, guids: seq<string>): seq<Response>
    requires |users| == |guids|
  {
    seq(|users|, i requires 0 <= i < |users| => Answer(users[i], guids[i]))
  }

  predicate Distinct(guids: seq<string>) {
    forall i, j :: 0 <= i < j < |guids| ==> guids[i] != guids[j]
  }

  /** `sent` holds jobs of the map, each at most once. */
  predicate SomeOf(sent: seq<Delivery>, jobs: Jobs) {
    && (forall i :: 0 <= i < |sent| ==> sent[i].messageID in jobs && sent[i] == jobs[sent[i].messageID])
    && (forall i, j :: 0 <= i < j < |sent| ==> sent[i].messageID != sent[j].messageID)
  }

  predicate AllOf(sent: seq<Delivery>, jobs: Jobs) {
    SomeOf(sent, jobs) && forall id :: id in jobs ==> jobs[id] in sent
  }

  // ---------------------------------------------------------------- what the specification means

  lemma {:induction false} JobsForKeys(users: seq<User>, guids: seq<string>, common: string, id: string)
    requires |users| == |guids|
    ensures id in JobsFor(users, guids, common) <==> id in guids
    ensures id in guids ==> JobsFor(users, guids, common)[id].messageID == id
  {
    if users != [] {
      var n := |users| - 1;
      JobsForKeys(users[..n], guids[..n], common, id);
      assert guids == guids[..n] + [guids[n]];
    }
  }

  /** The job under a GUID is that of the last user who drew it. */
  lemma {:induction false} LastUserKeepsGuid(users: seq<User>, guids: seq<string>, common: string, i: nat)
    requires |users| == |guids| && i < |users| && guids[i] !in guids[i + 1..]
    ensures guids[i] in JobsFor(users, guids, common)
    ensures JobsFor(users, guids, common)[guids[i]] == Delivery(common, users[i], guids[i])
  {
    var n := |users| - 1;
    if i < n {
      assert guids[i + 1..][n - i - 1] == guids[n];
      assert guids[..n][i + 1..] == guids[i + 1..][..n - i - 1];
      LastUserKeepsGuid(users[..n], guids[..n], common, i);
    }
  }

  /** Every job is some user's, under the GUID that was drawn for that user. */
  lemma {:induction false} JobsForSomebody(users: seq<User>, guids: seq<string>, common: string, id: string)
    requires |users| == |guids| && id in JobsFor(users, guids, common)
    ensures exists k :: 0 <= k < |users| && JobsFor(users, guids, common)[id] == Delivery(common, users[k], guids[k])
  {
    var n := |users| - 1;
    if id != guids[n] {
      JobsForSomebody(users[..n], guids[..n], common, id);
      var k :| 0 <= k < n && JobsFor(users[..n], guids[..n], common)[id] == Delivery(common, users[..n][k], guids[..n][k]);
      assert JobsFor(users, guids, common)[id] == Delivery(common, users[k], guids[k]);
    }
  }

  /** Each job is one user's, under the GUID that was drawn for that user. */
  predicate FromUsers(sent: seq<Delivery>, users: seq<User>, guids: seq<string>, common: string)
    requires |users| == |guids|
  {
    forall i :: 0 <= i < |sent| ==> exists k :: 0 <= k < |users| && sent[i] == Delivery(common, users[k], guids[k])
  }

  lemma {:induction false} SentToUsers(sent: seq<Delivery>, users: seq<User>, guids: seq<string>, common: string)
    requires |users| == |guids| && SomeOf(sent, JobsFor(users, guids, common))
    ensures FromUsers(sent, users, guids, common)
  {
    forall i | 0 <= i < |sent| ensures exists k :: 0 <= k < |users| && sent[i] == Delivery(common, users[k], guids[k]) {
      JobsForSomebody(users, guids, common, sent[i].messageID);
    }
  }

  /** One answer per user: "queued", the user's GUID, and the address if there is one. */
  predicate Answered(responses: seq<Response>, users: seq<User>, guids: seq<string>)
    requires |users| == |guids|
  {
    && |responses| == |users|
    && forall i :: 0 <= i < |users| ==>
         && responses[i].status == "queued" && responses[i].notificationID == guids[i]
         && responses[i].recipient == if users[i].email != "" then users[i].email else users[i].guid
  }

  lemma {:induction false} AnswersAre(users: seq<User>, guids: seq<string>)
    requires |users| == |guids|
    ensures Answered(Answers(users, guids), users, guids)
  {}

  /** There are as many jobs as users exactly when no GUID came twice. */
  lemma {:induction false} JobPerUserIff(users: seq<User>, guids: seq<string>, common: string)
    requires |users| == |guids|
    ensures |JobsFor(users, guids, common)| <= |users|
    ensures |JobsFor(users, guids, common)| == |users| <==> Distinct(guids)
  {
    if users != [] {
      var n := |users| - 1;
      var before := JobsFor(users[..n], guids[..n], common);
      JobPerUserIff(users[..n], guids[..n], common);
      JobsForKeys(users[..n], guids[..n], common, guids[n]);
      var after := before[guids[n] := Delivery(common, users[n], guids[n])];
      assert after.Keys == before.Keys + {guids[n]};
      if Distinct(guids) {
        assert guids[n] !in guids[..n];
      } else if guids[n] !in guids[..n] {
        assert Distinct(guids[..n]) ==> Distinct(guids);
      } else {
        var i :| 0 <= i < n && guids[..n][i] == guids[n];
        assert guids[i] == guids[n];
      }
    }
  }

  /** How far the second loop has got when the jobs `todo` are still to come. */
  predicate Progress(sent: seq<Delivery>, jobs: Jobs, todo: set<string>) {
    && SomeOf(sent, jobs)
    && todo <= jobs.Keys && |sent| + |todo| == |jobs|
    && (forall i :: 0 <= i < |sent| ==> sent[i].messageID !in todo)
    && (forall id :: id in jobs && id !in todo ==> jobs[id] in sent)
  }

  lemma OneMore(sent: seq<Delivery>, jobs: Jobs, id: string, todo: set<string>)
    requires Progress(sent, jobs, todo) && id in todo && jobs[id].messageID == id
    ensures Progress(sent + [jobs[id]], jobs, todo - {id})
  {
    assert (sent + [jobs[id]])[|sent|] == jobs[id];
  }

  lemma NoneLeft(sent: seq<Delivery>, jobs: Jobs)
    requires Progress(sent, jobs, {})
    ensures AllOf(sent, jobs) && |sent| == |jobs|
  {}

  lemma MarkedOneMore(messages: map<string, string>, start: map<string, string>, all: set<string>, todo: set<string>, id: string)
    requires Marked(messages, start, all - todo) && id in todo && todo <= all
    ensures Marked(messages[id := QUEUED], start, all - (todo - {id}))
  {
    assert all - (todo - {id}) == (all - todo) + {id};
  }

  // ---------------------------------------------------------------- the code

  /** The `messages` table, and the queue of the other database connection. */
  class Outbox {
    var messages: map<string, string>
    var queue: seq<Delivery>

    // ------------------------------------------ MessagesRepo

    method Create(id: string, status: string) returns (ok: bool)
      modifies this`messages
      ensures id in old(messages) ==> !ok
      ensures messages == if ok then old(messages)[id := status] else old(messages)
    {
      ok := *;
      if id in messages { ok := false; }
      if ok { messages := messages[id := status]; }
    }

    /** Update reads the row back: a message that is not there is reported. */
    method Update(id: string, status: string) returns (ok: bool)
      modifies this`messages
      ensures ok ==> id in old(messages)
      ensures messages == old(messages) || (id in old(messages) && messages == old(messages)[id := status])
      ensures ok ==> messages == old(messages)[id := status]
    {
      ok := *;
      if !ok { return; }
      if id in messages { messages := messages[id := status]; }
      var readBack: bool := *;
      ok := readBack && id in messages;
    }

    method Upsert(id: string, status: string) returns (ok: bool)
      modifies this`messages
      ensures ok ==> messages == old(messages)[id := status]
      ensures messages == old(messages) || messages == old(messages)[id := status]
    {
      var fails: bool := *;
      if fails { return false; }
      if id !in messages {
        ok := Create(id, status);
      } else {
        ok := Update(id, status);
      }
    }

    // ------------------------------------------ gobble.Queue

    method Enqueue(job: Delivery) returns (ok: bool)
      modifies this`queue
      ensures queue == if ok then old(queue) + [job] else old(queue)
    {
      ok := *;
      if ok { queue := queue + [job]; }
    }

    // ------------------------------------------ Mailer.Deliver

    /** The first loop. */
    static method Prepare(users: seq<User>, guids: seq<string>, common: string) returns (jobs: Jobs, responses: seq<Response>)
      requires |users| == |guids|
      ensures jobs == JobsFor(users, guids, common)
      ensures responses == Answers(users, guids)
    {
      jobs, responses := map[], [];
      for i := 0 to |users|
        invariant jobs == JobsFor(users[..i], guids[..i], common)
        invariant responses == Answers(users[..i], guids[..i])
      {
        assert users[..i + 1][..i] == users[..i] && guids[..i + 1][..i] == guids[..i];
        jobs := jobs[guids[i] := Delivery(common, users[i], guids[i])];
        var recipient := users[i].email;
        if recipient == "" { recipient := users[i].guid; }
        responses := responses + [Response(QUEUED, guids[i], recipient)];
      }
      assert users[..|users|] == users && guids[..|guids|] == guids;
    }

    /** The second loop, in whatever order the map is iterated: a job goes to the
        queue before its message row is written. */
    method SendAll(jobs: Jobs) returns (ok: bool, ghost sent: seq<Delivery>)
      requires forall id :: id in jobs ==> jobs[id].messageID == id
      modifies this
      ensures queue == old(queue) + sent && SomeOf(sent, jobs)
      ensures Backed(messages, old(messages), sent)
      ensures ok ==> AllOf(sent, jobs) && |sent| == |jobs| && Marked(messages, old(messages), jobs.Keys)
    {
      sent := [];
      var todo := jobs.Keys;
      while todo != {}
        invariant queue == old(queue) + sent && Progress(sent, jobs, todo)
        invariant Marked(messages, old(messages), jobs.Keys - todo) && Backed(messages, old(messages), sent)
        decreases |todo|
      {
        var id :| id in todo;
        ok := Enqueue(jobs[id]);
        if !ok { return; }
        OneMore(sent, jobs, id, todo);
        BackedOneMore(messages, old(messages), sent, jobs[id]);
        sent := sent + [jobs[id]];
        MarkedOneMore(messages, old(messages), jobs.Keys, todo, id);
        ok := Upsert(id, QUEUED);
        if !ok { return; }
        todo := todo - {id};
      }
      NoneLeft(sent, jobs);
      assert jobs.Keys - todo == jobs.Keys;
      ok := true;
    }

    /** `guids` are what the generator hands out, one per user.

        On success every user gets an answer, every job of the map is on the queue
        once and its message is "queued".  On failure there is no answer and no
        message row is kept, but the jobs enqueued so far stay on the queue. */
    method Deliver(users: seq<User>, guids: seq<string>, common: string)
      returns (responses: seq<Response>, committed: bool, ghost sent: seq<Delivery>)
      requires |users| == |guids|
      modifies this
      ensures queue == old(queue) + sent && SomeOf(sent, JobsFor(users, guids, common))
      ensures !committed ==> responses == [] && messages == old(messages)
      ensures committed ==> responses == Answers(users, guids)
      ensures committed ==> Answered(responses, users, guids)
      ensures FromUsers(sent, users, guids, common)
      ensures committed ==> AllOf(sent, JobsFor(users, guids, common))
      ensures committed ==> Marked(messages, old(messages), set id | id in guids)
      ensures committed ==> (|sent| == |users| <==> Distinct(guids))
    {
      var jobs, answers := Prepare(users, guids, common);
      forall id ensures (id in jobs <==> id in guids) && (id in jobs ==> jobs[id].messageID == id) {
        JobsForKeys(users, guids, common, id);
      }
      JobPerUserIff(users, guids, common);
      assert jobs.Keys == set id | id in guids;
      var begun := messages;
      committed, sent := SendAll(jobs);
      SentToUsers(sent, users, guids, common);
      AnswersAre(users, guids);
      if committed { committed := *; }
      if committed {
        responses := answers;
      } else {
        messages, responses := begun, [];
      }
    }
  }

  predicate Sent(sent: seq<Delivery>, id: string) {
    exists i :: 0 <= i < |sent| && sent[i].messageID == id
  }

  /** A message row is as it was, or its job is on the queue already. */
  predicate Backed(messages: map<string, string>, start: map<string, string>, sent: seq<Delivery>) {
    forall id :: id in messages ==>
      (id in start && messages[id] == start[id]) || (messages[id] == QUEUED && Sent(sent, id))
  }

  lemma {:induction false} BackedOneMore(messages: map<string, string>, start: map<string, string>, sent: seq<Delivery>, job: Delivery)
    requires Backed(messages, start, sent)
    ensures Backed(messages, start, sent + [job]) && Backed(messages[job.messageID := QUEUED], start, sent + [job])
  {
    assert (sent + [job])[|sent|] == job;
    forall id | Sent(sent, id) ensures Sent(sent + [job], id) {
      var i :| 0 <= i < |sent| && sent[i].messageID == id;
      assert (sent + [job])[i] == sent[i];
    }
  }

  /** Exactly the messages `done` were marked "queued". */
  predicate Marked(messages: map<string, string>, start: map<string, string>, done: set<string>) {
    && messages.Keys == start.Keys + done
    && forall id :: id in messages ==> messages[id] == if id in done then "queued" else start[id]
  }
}
