/** The one data migration: messages stored before messages had an owner are
    given the owner "default". */
module Migrations {
  import opened Wrappers
  import opened Tables

  const DefaultUserId: string := "default"

  /** One message after the migration. */
  function Migrated(m: Message): Message {
    if m.userId.None? then m.(userId := Some(DefaultUserId)) else m
  }

  /** The message table after the migration. */
  function MigratedAll(messages: seq<Message>): (r: seq<Message>)
    ensures |r| == |messages|
    ensures forall i :: 0 <= i < |messages| ==> r[i] == Migrated(messages[i])
  {
    seq(|messages|, i requires 0 <= i < |messages| => Migrated(messages[i]))
  }

  /** `migrateMessages`: every message without an owner is patched, one by
      one. */
  method MigrateMessages(db: Db)
    requires db.Valid()
    modifies db
    ensures db.Valid()
    ensures db.messages == MigratedAll(old(db.messages))
    ensures db.documents == old(db.documents) && db.accessRequests == old(db.accessRequests)
    ensures db.sessions == old(db.sessions) && db.nextId == old(db.nextId)
  {
    var k := 0;
    while k < |db.messages|
      invariant db.Valid()
      invariant k <= |db.messages| == |old(db.messages)|
      invariant forall i :: 0 <= i < k ==> db.messages[i] == Migrated(old(db.messages)[i])
      invariant forall i :: k <= i < |db.messages| ==> db.messages[i] == old(db.messages)[i]
      invariant db.documents == old(db.documents) && db.accessRequests == old(db.accessRequests)
      invariant db.sessions == old(db.sessions) && db.nextId == old(db.nextId)
    {
      var message := db.messages[k];
      if message.userId.None? {
        db.messages := db.messages[k := message.(userId := Some(DefaultUserId))];
      }
      k := k + 1;
    }
  }

  /** What the migration keeps and what it changes: the count and every
      message's id, content, role and timestamp are kept; messages that had an
      owner are untouched; afterwards every message has one, and those that
      had none have "default". */
  lemma MigrationKeeps(messages: seq<Message>)
    ensures var r := MigratedAll(messages);
            && |r| == |messages|
            && (forall i :: 0 <= i < |r| ==>
                  r[i].id == messages[i].id && r[i].content == messages[i].content
                  && r[i].role == messages[i].role && r[i].timestamp == messages[i].timestamp)
            && (forall i :: 0 <= i < |r| && messages[i].userId.Some? ==> r[i] == messages[i])
            && (forall i :: 0 <= i < |r| && messages[i].userId.None? ==> r[i].userId == Some(DefaultUserId))
            && (forall i :: 0 <= i < |r| ==> r[i].userId.Some?)
  {
  }

  /** Running the migration a second time changes nothing. */
  lemma MigrationIdempotent(messages: seq<Message>)
    ensures MigratedAll(MigratedAll(messages)) == MigratedAll(messages)
  {
  }
}
