/** Reply-chain fatigue: the notification side stops inviting the counterpart back exactly when the
    posting side would refuse their answer. */
module ReplyFatigue {
  import opened Wrappers
  import opened Elements
  import opened Names

  datatype Post = Post(author: Name, cap: Option<nat>)

  datatype Row = Row(author: Name, post: nat, parent: Option<nat>)

  /** `next` is the id the database gives to the next comment. */
  datatype Forum = Forum(posts: map<nat, Post>, comments: map<nat, Row>, next: nat)

  /// The exchange cap

  const EXCHANGE_CAP_LIMIT := 10

  /** The two bounds as stored: absent when the text is not a number. */
  datatype Settings = Settings(low: Option<int>, high: Option<int>, digest: (nat, Name, Name) -> nat)

  function CapBound(raw: Option<int>, default: int): int {
    if raw.None? then default
    else if raw.value < 1 then 1
    else if raw.value > EXCHANGE_CAP_LIMIT then EXCHANGE_CAP_LIMIT
    else raw.value
  }

  function ExchangeCap(s: Settings, post: nat, a: Name, b: Name): int {
    var low, high := CapBound(s.low, 2), CapBound(s.high, 3);
    if high <= low then low
    else low + (if AtMost(a, b) then s.digest(post, a, b) else s.digest(post, b, a)) % (high - low + 1)
  }

  /** The cap belongs to the unordered pair, and no setting takes it out of the sane range. */
  lemma CapOfThePair(s: Settings, post: nat, a: Name, b: Name)
    ensures ExchangeCap(s, post, a, b) == ExchangeCap(s, post, b, a)
    ensures 1 <= ExchangeCap(s, post, a, b) <= 10
  {
    NamesOrdered(a, b);
  }

  /** Between bounds in order the cap is drawn from all of them by the pair's digest, smaller name first; bounds
      out of order leave the lower one. */
  lemma CapInBounds(s: Settings, low: int, high: int, post: nat, a: Name, b: Name)
    requires s.low == Some(low) && s.high == Some(high) && 1 <= low <= 10 && 1 <= high <= 10
    ensures low > high ==> ExchangeCap(s, post, a, b) == low
    ensures low <= high && AtMost(a, b) ==>
              low <= ExchangeCap(s, post, a, b) <= high
              && ExchangeCap(s, post, a, b) - low == s.digest(post, a, b) % (high - low + 1)
  {
  }

  /** A bound that is no number counts as two below and three above, one below the range as one, and one above it
      as ten. */
  lemma BoundsAreClamped(s: Settings, v: int, post: nat, a: Name, b: Name)
    ensures ExchangeCap(s.(low := None), post, a, b) == ExchangeCap(s.(low := Some(2)), post, a, b)
    ensures ExchangeCap(s.(high := None), post, a, b) == ExchangeCap(s.(high := Some(3)), post, a, b)
    ensures v < 1 ==> ExchangeCap(s.(low := Some(v)), post, a, b) == ExchangeCap(s.(low := Some(1)), post, a, b)
    ensures v < 1 ==> ExchangeCap(s.(high := Some(v)), post, a, b) == ExchangeCap(s.(high := Some(1)), post, a, b)
    ensures v > 10 ==> ExchangeCap(s.(low := Some(v)), post, a, b) == ExchangeCap(s.(low := Some(10)), post, a, b)
    ensures v > 10 ==> ExchangeCap(s.(high := Some(v)), post, a, b) == ExchangeCap(s.(high := Some(10)), post, a, b)
  {
  }

  /// The alternating tail

  /** The first `n` authors alternate between two distinct ones. */
  predicate Alternates(authors: seq<Name>, n: nat)
    requires n <= |authors|
  {
    && (n >= 2 ==> authors[0] != authors[1])
    && (forall i :: 2 <= i < n ==> authors[i] == authors[i - 2])
  }

  /** `n` is the length of the longest alternating run at the deepest end. */
  predicate IsTail(authors: seq<Name>, n: nat) {
    n <= |authors| && Alternates(authors, n) && (n < |authors| ==> !Alternates(authors, n + 1))
  }

  function Tail(authors: seq<Name>): (n: nat)
    ensures IsTail(authors, n)
  {
    if |authors| < 2 then |authors|
    else if authors[0] == authors[1] then 1
    else if |authors| == 2 || authors[2] != authors[0] then 2
    else
      var rest := authors[1..];
      assert forall i :: 0 <= i < |rest| ==> rest[i] == authors[i + 1];
      assert forall i :: 2 <= i < |authors| ==> authors[i] == rest[i - 1];
      1 + Tail(rest)
  }

  lemma TailUnique(authors: seq<Name>, n: nat, m: nat)
    requires IsTail(authors, n) && IsTail(authors, m)
    ensures n == m
  {
    if n < m { assert Alternates(authors, n + 1); }
    if m < n { assert Alternates(authors, m + 1); }
  }

  method AlternatingTailLength(authors: seq<Name>) returns (length: nat)
    ensures IsTail(authors, length)
  {
    if |authors| < 2 {
      return |authors|;
    }
    var first, second := authors[0], authors[1];
    if first == second {
      return 1;
    }
    length := 2;
    while length < |authors|
      invariant 2 <= length <= |authors|
      invariant forall i :: 0 <= i < length ==> authors[i] == if i % 2 == 0 then first else second
    {
      var expected := if length % 2 == 0 then first else second;
      if authors[length] != expected {
        break;
      }
      length := length + 1;
    }
    assert length < |authors| ==> authors[length] != authors[length - 2];
  }

  /** Authors from comment `id` up to the root; a parent link that was seen or leads nowhere ends it. */
  function Chain(comments: map<nat, Row>, id: Option<nat>, visited: set<nat>): seq<Name>
    decreases comments.Keys - visited
  {
    if id.None? || id.value in visited || id.value !in comments then []
    else [comments[id.value].author] + Chain(comments, comments[id.value].parent, visited + {id.value})
  }

  /** The authors of the chain a reply lands in, the reply itself included. */
  function Lineage(comments: map<nat, Row>, parent: Option<nat>, author: Name): seq<Name> {
    [author] + Chain(comments, parent, {})
  }

  function TailFor(comments: map<nat, Row>, parent: Option<nat>, author: Name): nat {
    Tail(Lineage(comments, parent, author))
  }

  method ExchangeTailForReply(comments: map<nat, Row>, parent: Option<nat>, author: Name) returns (length: nat)
    ensures length == TailFor(comments, parent, author)
  {
    var authors := [author];
    var id := parent;
    var visited: set<nat> := {};
    while id.Some? && id.value !in visited
      invariant authors + Chain(comments, id, visited) == Lineage(comments, parent, author)
      decreases comments.Keys - visited, id
    {
      if id.value !in comments {
        assert Chain(comments, id, visited) == [];
        break;
      }
      var row := comments[id.value];
      visited := visited + {id.value};
      authors := authors + [row.author];
      id := row.parent;
    }
    assert authors == Lineage(comments, parent, author);
    length := AlternatingTailLength(authors);
    TailUnique(authors, length, Tail(authors));
  }

  /// Posting and notifying

  datatype Refused = NoSuchPost | ThreadFull | NoSuchParent | LetItGo | Invalid

  datatype Outcome = Posted(id: nat) | Declined(why: Refused)

  datatype Draft = Draft(author: Name, post: nat, parent: Option<nat>, valid: bool)

  function CommentsOn(comments: map<nat, Row>, post: nat): set<nat> {
    set k | k in comments && comments[k].post == post
  }

  /** Answering `parent` would stretch the exchange past the pair's cap. */
  predicate PastCap(f: Forum, s: Settings, d: Draft) {
    && d.parent.Some? && d.parent.value in f.comments
    && f.comments[d.parent.value].author != d.author
    && TailFor(f.comments, d.parent, d.author) > ExchangeCap(s, d.post, f.comments[d.parent.value].author, d.author)
  }

  function Refusal(f: Forum, s: Settings, d: Draft): Option<Refused> {
    if d.post !in f.posts then Some(NoSuchPost)
    else if f.posts[d.post].cap.Some? && |CommentsOn(f.comments, d.post)| >= f.posts[d.post].cap.value
    then Some(ThreadFull)
    else if d.parent.Some? && (d.parent.value !in f.comments || f.comments[d.parent.value].post != d.post)
    then Some(NoSuchParent)
    else if PastCap(f, s, d) then Some(LetItGo)
    else if !d.valid then Some(Invalid)
    else None
  }

  /** The comments under a post. */
  function Under(f: Forum, post: nat): set<nat> {
    set k | k in f.comments && f.comments[k].post == post
  }

  /** The draft answers another author under whom the exchange, this answer included, exceeds the pair's cap. */
  predicate GoesOnTooLong(f: Forum, s: Settings, d: Draft) {
    && d.parent.Some? && d.parent.value in f.comments && f.comments[d.parent.value].author != d.author
    && Tail([d.author] + Chain(f.comments, d.parent, {}))
       > ExchangeCap(s, d.post, f.comments[d.parent.value].author, d.author)
  }

  /** The ground on which a draft is declined, the first of several; it is posted exactly if there is none: the post
      exists and has room, the parent is a comment under it, the exchange is not over, and the text is valid. */
  lemma RefusalMeans(f: Forum, s: Settings, d: Draft)
    ensures var cap := if d.post in f.posts then f.posts[d.post].cap else None;
            var room := cap.Some? ==> |Under(f, d.post)| < cap.value;
            var fits := d.parent.Some? ==> d.parent.value in f.comments && f.comments[d.parent.value].post == d.post;
            Refusal(f, s, d)
            == if d.post !in f.posts then Some(NoSuchPost)
               else if !room then Some(ThreadFull)
               else if !fits then Some(NoSuchParent)
               else if GoesOnTooLong(f, s, d) then Some(LetItGo)
               else if d.valid then None else Some(Invalid)
  {
    assert Under(f, d.post) == CommentsOn(f.comments, d.post);
  }

  function Append(f: Forum, d: Draft): Forum {
    f.(comments := f.comments[f.next := Row(d.author, d.post, d.parent)], next := f.next + 1)
  }

  function Created(f: Forum, s: Settings, d: Draft): Forum {
    if Refusal(f, s, d).Some? then f else Append(f, d)
  }

  /** The reply completed the exchange, so its parent's author is not called back. */
  predicate Fatigued(f: Forum, s: Settings, humans: set<Name>, reply: Row) {
    && reply.parent.Some? && reply.parent.value in f.comments
    && var recipient := f.comments[reply.parent.value].author;
    && recipient != reply.author
    && recipient !in humans
    && TailFor(f.comments, reply.parent, reply.author) >= ExchangeCap(s, reply.post, recipient, reply.author)
  }

  class Thread {
    var posts: map<nat, Post>
    var comments: map<nat, Row>
    var next: nat

    function View(): Forum
      reads this
    {
      Forum(posts, comments, next)
    }

    /** The agents' comment tool. */
    method CreateComment(s: Settings, d: Draft) returns (outcome: Outcome)
      modifies this`comments, this`next
      ensures View() == Created(old(View()), s, d)
      ensures match Refusal(old(View()), s, d)
              case Some(why) => outcome == Declined(why)
              case None => outcome == Posted(old(next))
    {
      if d.post !in posts {
        return Declined(NoSuchPost);
      }
      if posts[d.post].cap.Some? {
        var existing := |CommentsOn(comments, d.post)|;
        if existing >= posts[d.post].cap.value {
          return Declined(ThreadFull);
        }
      }
      if d.parent.Some? {
        if d.parent.value !in comments || comments[d.parent.value].post != d.post {
          return Declined(NoSuchParent);
        }
        var parentAuthor := comments[d.parent.value].author;
        if parentAuthor != d.author {
          var cap := ExchangeCap(s, d.post, parentAuthor, d.author);
          var tail := ExchangeTailForReply(comments, d.parent, d.author);
          if tail > cap {
            return Declined(LetItGo);
          }
        }
      }
      if !d.valid {
        return Declined(Invalid);
      }
      comments := comments[next := Row(d.author, d.post, d.parent)];
      next := next + 1;
      return Posted(next - 1);
    }

    /** Whom the fresh comment notifies as a reply, before any dedupe. */
    method ReplyRecipient(s: Settings, humans: set<Name>, comment: Row) returns (recipient: Option<Name>)
      ensures comment.parent.None? ==>
                recipient == if comment.post in posts then Some(posts[comment.post].author) else None
      ensures comment.parent.Some? ==>
                recipient == if comment.parent.value !in comments || Fatigued(View(), s, humans, comment) then None
                             else Some(comments[comment.parent.value].author)
      ensures comment.parent.Some? && comment.parent.value in comments ==>
                var author := comments[comment.parent.value].author;
                && (author in humans || author == comment.author ==> recipient == Some(author))
                && (author !in humans && author != comment.author ==>
                      recipient == if Tail([comment.author] + Chain(comments, comment.parent, {}))
                                      >= ExchangeCap(s, comment.post, author, comment.author)
                                   then None else Some(author))
    {
      if comment.parent.Some? {
        recipient := if comment.parent.value in comments then Some(comments[comment.parent.value].author) else None;
        if recipient.Some? && recipient.value != comment.author && recipient.value !in humans {
          var tail := ExchangeTailForReply(comments, comment.parent, comment.author);
          if tail >= ExchangeCap(s, comment.post, recipient.value, comment.author) {
            recipient := None;
          }
        }
      } else {
        recipient := if comment.post in posts then Some(posts[comment.post].author) else None;
      }
    }
  }

  /// The two sides agree

  /** Ids only grow, and a comment's parent existed before it. */
  ghost predicate Rooted(f: Forum) {
    forall k :: k in f.comments ==>
                  k < f.next && (f.comments[k].parent.Some? ==> f.comments[k].parent.value < k)
  }

  /** Going up, nothing at or above `bound` is met, so marking or changing such rows changes nothing. */
  lemma {:induction false} ChainBelow(f: Forum, g: Forum, id: Option<nat>, some: set<nat>, other: set<nat>, bound: nat)
    requires Rooted(f) && (id.Some? ==> id.value < bound)
    requires forall k :: k < bound ==> (k in f.comments <==> k in g.comments)
    requires forall k :: k < bound && k in f.comments ==> f.comments[k] == g.comments[k]
    requires (forall k :: k in some ==> k >= bound) && (forall k :: k in other ==> k >= bound)
    ensures Chain(f.comments, id, some) == Chain(g.comments, id, other)
    decreases bound
  {
    if id.None? || id.value !in f.comments {
    } else {
      var parent := f.comments[id.value].parent;
      ChainBelow(f, g, parent, some + {id.value}, other + {id.value}, id.value);
    }
  }

  /** An answer to comment `k` lands in the chain of `k` with its author in front. */
  lemma AnswerExtends(f: Forum, k: nat, answerer: Name)
    requires Rooted(f) && k in f.comments
    ensures Lineage(f.comments, Some(k), answerer)
            == [answerer] + Lineage(f.comments, f.comments[k].parent, f.comments[k].author)
  {
    ChainBelow(f, f, f.comments[k].parent, {k}, {}, k);
    assert {} + {k} == {k};
  }

  /** The counterpart answering at once makes the tail exactly one longer. */
  lemma AnswerTail(f: Forum, k: nat)
    requires Rooted(f) && k in f.comments && f.comments[k].parent.Some? && f.comments[k].parent.value in f.comments
    requires f.comments[f.comments[k].parent.value].author != f.comments[k].author
    ensures var reply := f.comments[k];
            TailFor(f.comments, Some(k), f.comments[reply.parent.value].author)
            == TailFor(f.comments, reply.parent, reply.author) + 1
  {
    var reply := f.comments[k];
    var counterpart := f.comments[reply.parent.value].author;
    AnswerExtends(f, k, counterpart);
    var line := Lineage(f.comments, reply.parent, reply.author);
    assert line[0] == reply.author && line[1] == counterpart;
    assert ([counterpart] + line)[1..] == line;
    assert Tail([counterpart] + line) == 1 + Tail(line);
  }

  /** For any reply to another persona's comment: the counterpart is called back exactly when the tool
      would take their immediate answer. */
  lemma BothSidesAgree(f: Forum, s: Settings, humans: set<Name>, k: nat, valid: bool)
    requires Rooted(f) && k in f.comments && f.comments[k].parent.Some? && f.comments[k].parent.value in f.comments
    requires f.comments[f.comments[k].parent.value].author !in humans + {f.comments[k].author}
    ensures var reply := f.comments[k];
            var answer := Draft(f.comments[reply.parent.value].author, reply.post, Some(k), valid);
            Fatigued(f, s, humans, reply) <==> PastCap(f, s, answer)
  {
    var reply := f.comments[k];
    AnswerTail(f, k);
    CapOfThePair(s, reply.post, f.comments[reply.parent.value].author, reply.author);
  }

  /// Over whole histories

  /** No reply to another author's comment sits in an exchange longer than the pair's cap. */
  ghost predicate ExchangesCapped(f: Forum, s: Settings) {
    forall k :: k in f.comments ==> ReplyCapped(f, s, f.comments[k])
  }

  predicate ReplyCapped(f: Forum, s: Settings, reply: Row) {
    reply.parent.Some? && reply.parent.value in f.comments && f.comments[reply.parent.value].author != reply.author ==>
      TailFor(f.comments, reply.parent, reply.author)
      <= ExchangeCap(s, reply.post, f.comments[reply.parent.value].author, reply.author)
  }

  ghost predicate ThreadsCapped(f: Forum) {
    forall p :: p in f.posts && f.posts[p].cap.Some? ==> |CommentsOn(f.comments, p)| <= f.posts[p].cap.value
  }

  /** Posting through the tool, or an admin deleting comments with everything beneath them. */
  datatype Op = Comment(draft: Draft) | Delete(doomed: set<nat>)

  ghost predicate ClosedBelow(f: Forum, doomed: set<nat>) {
    forall k :: k in f.comments && k !in doomed && f.comments[k].parent.Some? ==> f.comments[k].parent.value !in doomed
  }

  ghost function Perform(f: Forum, s: Settings, op: Op): Forum {
    match op
    case Comment(d) => Created(f, s, d)
    case Delete(doomed) => if ClosedBelow(f, doomed) then f.(comments := f.comments - doomed) else f
  }

  ghost function PerformAll(f: Forum, s: Settings, ops: seq<Op>): Forum {
    if ops == [] then f else Perform(PerformAll(f, s, ops[..|ops| - 1]), s, ops[|ops| - 1])
  }

  lemma AppendKeepsLineage(f: Forum, d: Draft, parent: Option<nat>, author: Name)
    requires Rooted(f) && (parent.Some? ==> parent.value < f.next)
    ensures Lineage(Append(f, d).comments, parent, author) == Lineage(f.comments, parent, author)
  {
    ChainBelow(f, Append(f, d), parent, {}, {}, f.next);
  }

  /** A parent that exists precedes the row; one that was deleted no longer does. */
  lemma {:induction false} DeleteKeepsChain(f: Forum, doomed: set<nat>, id: Option<nat>, visited: set<nat>)
    requires ClosedBelow(f, doomed) && (id.Some? ==> id.value !in doomed)
    ensures Chain(f.comments - doomed, id, visited) == Chain(f.comments, id, visited)
    decreases f.comments.Keys - visited
  {
    if id.None? || id.value in visited || id.value !in f.comments {
    } else {
      DeleteKeepsChain(f, doomed, f.comments[id.value].parent, visited + {id.value});
    }
  }

  lemma CommentKeepsExchanges(f: Forum, s: Settings, d: Draft)
    requires Rooted(f) && ExchangesCapped(f, s)
    ensures Rooted(Created(f, s, d)) && ExchangesCapped(Created(f, s, d), s)
  {
    if Refusal(f, s, d).None? {
      var g := Append(f, d);
      forall k | k in g.comments
        ensures ReplyCapped(g, s, g.comments[k])
      {
        var row := g.comments[k];
        assert k != f.next ==> row == f.comments[k] && ReplyCapped(f, s, row);
        AppendKeepsLineage(f, d, row.parent, row.author);
      }
    }
  }

  lemma DeleteKeepsExchanges(f: Forum, s: Settings, doomed: set<nat>)
    requires Rooted(f) && ExchangesCapped(f, s) && ClosedBelow(f, doomed)
    ensures var g := f.(comments := f.comments - doomed); Rooted(g) && ExchangesCapped(g, s)
  {
    var g := f.(comments := f.comments - doomed);
    forall k | k in g.comments
      ensures ReplyCapped(g, s, g.comments[k])
    {
      assert ReplyCapped(f, s, f.comments[k]);
      DeleteKeepsChain(f, doomed, f.comments[k].parent, {});
    }
  }

  lemma AppendOnThread(f: Forum, d: Draft, p: nat)
    requires f.next !in f.comments
    ensures |CommentsOn(Append(f, d).comments, p)| == |CommentsOn(f.comments, p)| + if p == d.post then 1 else 0
  {
    assert CommentsOn(Append(f, d).comments, p) == CommentsOn(f.comments, p) + if p == d.post then {f.next} else {};
  }

  lemma CommentKeepsThreads(f: Forum, s: Settings, d: Draft)
    requires Rooted(f) && ThreadsCapped(f)
    ensures ThreadsCapped(Created(f, s, d))
  {
    if Refusal(f, s, d).None? {
      var g := Append(f, d);
      forall p | p in f.posts && f.posts[p].cap.Some?
        ensures |CommentsOn(g.comments, p)| <= f.posts[p].cap.value
      {
        AppendOnThread(f, d, p);
      }
    }
  }

  lemma DeleteKeepsThreads(f: Forum, doomed: set<nat>)
    requires ThreadsCapped(f)
    ensures ThreadsCapped(f.(comments := f.comments - doomed))
  {
    forall p | p in f.posts && f.posts[p].cap.Some?
      ensures |CommentsOn(f.comments - doomed, p)| <= f.posts[p].cap.value
    {
      SubsetCount(CommentsOn(f.comments - doomed, p), CommentsOn(f.comments, p));
    }
  }

  /** With fixed settings, a forum whose replies all go through the tool never holds an exchange past
      its cap or a thread past its ceiling, whatever is deleted in between. */
  lemma {:induction false} ToolKeepsCaps(f: Forum, s: Settings, ops: seq<Op>)
    requires Rooted(f) && ExchangesCapped(f, s) && ThreadsCapped(f)
    ensures var g := PerformAll(f, s, ops); Rooted(g) && ExchangesCapped(g, s) && ThreadsCapped(g)
  {
    if ops == [] {
    } else {
      ToolKeepsCaps(f, s, ops[..|ops| - 1]);
      var g := PerformAll(f, s, ops[..|ops| - 1]);
      match ops[|ops| - 1]
      case Comment(d) =>
        CommentKeepsExchanges(g, s, d);
        CommentKeepsThreads(g, s, d);
      case Delete(doomed) =>
        if ClosedBelow(g, doomed) {
          DeleteKeepsExchanges(g, s, doomed);
          DeleteKeepsThreads(g, doomed);
        }
    }
  }
}
