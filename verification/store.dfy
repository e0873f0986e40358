/**
 The post store (`db` in `server.js`) and the websocket fan-out of new posts.

 The store keeps two copies of the feed: the in-memory array every read is
 served from, and `posts.json`. JSON (de)serialisation is not modelled: a file
 either holds posts, or is missing, or holds text `JSON.parse` rejects.
 */
module Store {
  import opened Wrappers
  import opened Feed

  /** The state of `posts.json`. */
  datatype File = Missing | Holds(posts: seq<Post>) | Unreadable

  datatype Db = Db(memory: seq<Post>, persisted: File)

  /** The file holds exactly what memory holds. */
  predicate Converged(db: Db) {
    db.persisted == Holds(db.memory)
  }

  /**
   Startup: read `posts.json` when it exists, otherwise start from an empty
   feed. A file that does not parse makes startup throw (`None`).
   */
  function Load(file: File): (r: Option<Db>)
    ensures file.Holds? ==> r.Some? && Converged(r.value) && r.value.memory == file.posts
    ensures file.Missing? ==> r == Some(Db([], Missing))
    ensures r.None? <==> file.Unreadable?
  {
    match file
    case Missing => Some(Db([], Missing))
    case Holds(posts) => Some(Db(posts, file))
    case Unreadable => None
  }

  /** `db.get()`: reads are served from memory. */
  function Get(db: Db): seq<Post> {
    db.memory
  }

  /**
   How `writeFileSync` ended: the file was written, or the call threw and left
   the file as `left` says. The file is opened truncating, so a failure after
   the open leaves it empty or partly written (`Unreadable`); a failure before
   the open leaves it as it was.
   */
  datatype WriteResult = Written | WriteFailed(left: File)

  /**
   Puts a new post at the head of the feed and saves it. `unshift` has
   already changed the in-memory array when `writeFileSync` runs, so a failed
   write leaves the new post in memory whatever it did to the file.
   */
  function Prepend(db: Db, post: Post, write: WriteResult): (r: Db)
    ensures r.memory == [post] + db.memory
    ensures |r.memory| == |db.memory| + 1 && r.memory[0] == post && r.memory[1..] == db.memory
    ensures write.Written? ==> Converged(r)
    ensures write.WriteFailed? ==> r.persisted == write.left
  {
    var data := [post] + Get(db);
    match write
    case Written => Db(data, Holds(data))
    case WriteFailed(left) => Db(data, left)
  }

  /** After a successful save the copies agree, whatever state they were in before. */
  lemma SaveConverges(db: Db, post: Post)
    ensures Converged(Prepend(db, post, Written))
    ensures Get(Prepend(db, post, Written)) == [post] + Get(db)
    ensures Load(Prepend(db, post, Written).persisted) == Some(Prepend(db, post, Written))
  {
  }

  /**
   A write that failed after truncating the file loses every post, the old
   ones included, at the next startup, which then throws.
   */
  lemma TruncatedWriteBreaksRestart(db: Db, post: Post)
    ensures Get(Prepend(db, post, WriteFailed(Unreadable))) == [post] + Get(db)
    ensures Load(Prepend(db, post, WriteFailed(Unreadable)).persisted) == None
  {
  }

  /** A new post is the first entry of page 1 afterwards; the rest of page 1 is the old head of the feed. */
  lemma NewPostLeadsFirstPage(db: Db, post: Post, write: WriteResult)
    ensures Paginate(Get(Prepend(db, post, write)), 1).posts ==
      [post] + Paginate(Get(db), 1).posts[..Min(PostsPerPage - 1, |Get(db)|)]
  {
    var all := Get(Prepend(db, post, write));
    var prior := Get(db);
    assert all == [post] + prior;
    var w := Paginate(all, 1);
    var v := Paginate(prior, 1);
    assert w.page == 1;
    assert w.posts == all[..Min(PostsPerPage, |all|)];
    if prior != [] {
      assert v.page == 1;
      assert v.posts == prior[..Min(PostsPerPage, |prior|)];
    }
    assert all[..Min(PostsPerPage, |all|)] == [post] + prior[..Min(PostsPerPage - 1, |prior|)];
  }

  /** The `readyState` values of a `ws` connection. */
  datatype ReadyState = Connecting | Open | Closing | Closed

  /** A connected websocket client and the messages sent to it so far. */
  datatype Client = Client(readyState: ReadyState, outbox: seq<Post>)

  /**
   `after` is `before` once `post` has been sent to every open client: each
   open client's outbox gains the post at its end, every other client is
   unchanged, and no client is added, removed or reordered.
   */
  ghost predicate Broadcasted(before: seq<Client>, after: seq<Client>, post: Post) {
    && |after| == |before|
    && (forall i :: 0 <= i < |before| && before[i].readyState == Open ==>
          after[i] == Client(Open, before[i].outbox + [post]))
    && (forall i :: 0 <= i < |before| && before[i].readyState != Open ==> after[i] == before[i])
  }

  /** The `wss.clients.forEach` loop that sends a new post to the open clients. */
  method Broadcast(clients: seq<Client>, post: Post) returns (sent: seq<Client>)
    ensures Broadcasted(clients, sent, post)
  {
    sent := [];
    var i := 0;
    while i < |clients|
      invariant 0 <= i <= |clients|
      invariant |sent| == i
      invariant forall j :: 0 <= j < i && clients[j].readyState == Open ==>
        sent[j] == Client(Open, clients[j].outbox + [post])
      invariant forall j :: 0 <= j < i && clients[j].readyState != Open ==> sent[j] == clients[j]
    {
      var client := clients[i];
      if client.readyState == Open {
        client := client.(outbox := client.outbox + [post]);
      }
      sent := sent + [client];
      i := i + 1;
    }
  }

  /** Each open client receives the post exactly once more; the others receive nothing. */
  lemma DeliveredExactlyOnce(before: seq<Client>, after: seq<Client>, post: Post, i: nat)
    requires Broadcasted(before, after, post)
    requires i < |before|
    ensures multiset(after[i].outbox)[post] ==
      multiset(before[i].outbox)[post] + (if before[i].readyState == Open then 1 else 0)
    ensures |after[i].outbox| == |before[i].outbox| + (if before[i].readyState == Open then 1 else 0)
  {
  }
}
