/** UStdbNetworkManager: the game instance's list of active connections.
  * A connection is added at most once, removed wherever it stands, and
  * visited from the last entry to the first; on shutdown every connection
  * is shut down and the list emptied. A null entry stands for an invalid
  * TSharedPtr. */
module NetworkManager {
  import ClientBase

  type Conn = ClientBase.StdbClient?

  /** No entry occurs twice. */
  predicate Distinct(s: seq<Conn>) {
    forall i, j :: 0 <= i < j < |s| ==> s[i] != s[j]
  }

  /** TArray::Remove: every entry equal to `x` dropped, the others kept in
    * order. */
  function Without(s: seq<Conn>, x: Conn): (r: seq<Conn>)
    ensures forall i :: 0 <= i < |r| ==> r[i] in s && r[i] != x
    ensures forall i :: 0 <= i < |s| && s[i] != x ==> s[i] in r
    ensures x !in s ==> r == s
  {
    if s == [] then []
    else if s[0] == x then Without(s[1..], x)
    else [s[0]] + Without(s[1..], x)
  }

  /** Removal works piecewise: from a concatenation, it removes from each part. */
  lemma {:induction false} WithoutConcat(a: seq<Conn>, b: seq<Conn>, x: Conn)
    ensures Without(a + b, x) == Without(a, x) + Without(b, x)
  {
    if a == [] {
      assert a + b == b;
    } else {
      var c, tail := a + b, a[1..];
      assert c[0] == a[0] && c[1..] == tail + b;
      WithoutConcat(tail, b, x);
      if a[0] != x {
        assert Without(c, x) == [a[0]] + (Without(tail, x) + Without(b, x));
        assert Without(a, x) == [a[0]] + Without(tail, x);
      }
    }
  }

  /** Removal keeps the other entries in their order: what is left of a
    * list with `x` at index i is the entries before and after it. */
  lemma WithoutDistinct(s: seq<Conn>, x: Conn, i: nat)
    requires Distinct(s) && i < |s| && s[i] == x
    ensures Without(s, x) == s[..i] + s[i + 1..]
  {
    var before, after := s[..i], s[i + 1..];
    assert x !in before by {
      forall k | 0 <= k < |before| ensures before[k] != x {
        assert before[k] == s[k];
      }
    }
    assert x !in after by {
      forall k | 0 <= k < |after| ensures after[k] != x {
        assert after[k] == s[i + 1 + k];
      }
    }
    assert s == before + ([x] + after);
    WithoutConcat(before, [x] + after, x);
    WithoutConcat([x], after, x);
    assert Without([x], x) == [];
    assert [] + after == after;
  }

  /** Removal from a list without duplicates leaves none. */
  lemma {:induction false} WithoutKeepsDistinct(s: seq<Conn>, x: Conn)
    requires Distinct(s)
    ensures Distinct(Without(s, x))
  {
    if s != [] {
      WithoutKeepsDistinct(s[1..], x);
      assert s[0] !in s[1..];
    }
  }

  /** The order ForEachConnection visits: the last entry first. */
  function Reversed(s: seq<Conn>): (r: seq<Conn>)
    ensures |r| == |s|
    ensures forall k :: 0 <= k < |s| ==> r[k] == s[|s| - 1 - k]
  {
    if s == [] then [] else [s[|s| - 1]] + Reversed(s[..|s| - 1])
  }

  class Manager {
    var connections: seq<Conn>

    ghost predicate Valid()
      reads this
    {
      Distinct(connections)
    }

    constructor ()
      ensures Valid() && connections == []
    {
      connections := [];
    }

    /** AddConnection: false, and nothing changed, when the connection is
      * already there; otherwise it is appended and the result is true. */
    method AddConnection(conn: Conn) returns (added: bool)
      requires Valid()
      modifies this
      ensures Valid()
      ensures added <==> conn !in old(connections)
      ensures connections == if added then old(connections) + [conn] else old(connections)
    {
      if conn in connections {
        return false;
      }
      connections := connections + [conn];
      return true;
    }

    /** RemoveConnection: true exactly when the connection was there; the
      * other entries stay in order. */
    method RemoveConnection(conn: Conn) returns (removed: bool)
      requires Valid()
      modifies this
      ensures Valid()
      ensures removed <==> conn in old(connections)
      ensures connections == Without(old(connections), conn)
      ensures |connections| == |old(connections)| - if removed then 1 else 0
    {
      removed := conn in connections;
      if removed {
        var i :| 0 <= i < |connections| && connections[i] == conn;
        WithoutDistinct(connections, conn, i);
      }
      WithoutKeepsDistinct(connections, conn);
      connections := Without(connections, conn);
    }

    /** ForEachConnection: the index runs down from the last entry to 0,
      * so every entry is visited once, last first. */
    method ForEachConnection() returns (visits: seq<Conn>)
      ensures visits == Reversed(connections)
    {
      visits := [];
      var i := |connections| - 1;
      while i >= 0
        invariant -1 <= i < |connections|
        invariant |visits| == |connections| - 1 - i
        invariant forall k :: 0 <= k < |visits| ==> visits[k] == connections[|connections| - 1 - k]
      {
        visits := visits + [connections[i]];
        i := i - 1;
      }
    }

    /** Deinitialize: every valid connection, last first, is shut down,
      * and the list is emptied. A connection listed twice is shut down
      * twice, which changes nothing the second time. */
    method Deinitialize()
      modifies this`connections
      modifies (set c | c in connections && c != null)`stop, (set c | c in connections && c != null)`delegatesBound,
        (set c | c in connections && c != null)`callbacksInitialized, (set c | c in connections && c != null)`socket,
        (set c | c in connections && c != null)`closeCodes, (set c | c in connections && c != null)`handlersBound
      ensures connections == []
      ensures forall c :: c in old(connections) && c != null ==>
        c.stop && !c.delegatesBound && c.socket == ClientBase.NoSocket
      ensures forall c :: c in old(connections) && c != null ==>
        c.callbacksInitialized == (old(c.callbacksInitialized) && old(c.socket) == ClientBase.NoSocket) &&
        c.handlersBound == (old(c.handlersBound) && old(c.socket) == ClientBase.NoSocket)
      ensures forall c :: c in old(connections) && c != null ==>
        c.closeCodes == old(c.closeCodes) + if old(c.socket).Open? then [ClientBase.NormalCloseCode] else []
    {
      var cs := connections;
      var i := |cs| - 1;
      while i >= 0
        invariant -1 <= i < |cs|
        invariant forall c :: c in cs[i + 1..] && c != null ==>
          c.stop && !c.delegatesBound && c.socket == ClientBase.NoSocket &&
          c.callbacksInitialized == (old(c.callbacksInitialized) && old(c.socket) == ClientBase.NoSocket) &&
          c.handlersBound == (old(c.handlersBound) && old(c.socket) == ClientBase.NoSocket) &&
          c.closeCodes == old(c.closeCodes) + if old(c.socket).Open? then [ClientBase.NormalCloseCode] else []
        invariant forall c :: c in cs && c !in cs[i + 1..] && c != null ==>
          c.socket == old(c.socket) && c.callbacksInitialized == old(c.callbacksInitialized) &&
          c.handlersBound == old(c.handlersBound) && c.closeCodes == old(c.closeCodes)
      {
        var conn := cs[i];
        if conn != null {
          conn.Shutdown();
        }
        assert cs[i..] == [cs[i]] + cs[i + 1..];
        i := i - 1;
      }
      assert cs[0..] == cs;
      connections := [];
    }

    /** TickNetwork: FrameTick on every valid connection, last first;
      * each one's processed messages are handled, its OnConnect greeted
      * for each token while bound, and its queue left empty. */
    method TickNetwork()
      requires Valid()
      requires forall c :: c in connections && c != null ==>
        forall i :: 0 <= i < |c.processedQueue| ==> c.processedQueue[i].Decoded?
      modifies (set c | c in connections && c != null)`processedQueue,
        (set c | c in connections && c != null)`identity, (set c | c in connections && c != null)`greetings
      ensures forall c :: c in connections && c != null ==>
        c.processedQueue == [] && c.identity == ClientBase.IdentityAfter(old(c.identity), old(c.processedQueue))
      ensures forall c :: c in connections && c != null ==>
        c.greetings == old(c.greetings) + if c.delegatesBound then ClientBase.Greetings(old(c.processedQueue)) else []
    {
      var i := |connections| - 1;
      while i >= 0
        invariant -1 <= i < |connections|
        invariant forall j :: i < j < |connections| && connections[j] != null ==>
          connections[j].processedQueue == [] &&
          connections[j].identity == ClientBase.IdentityAfter(old(connections[j].identity), old(connections[j].processedQueue)) &&
          connections[j].greetings == old(connections[j].greetings) +
            if connections[j].delegatesBound then ClientBase.Greetings(old(connections[j].processedQueue)) else []
        invariant forall j :: 0 <= j <= i && connections[j] != null ==>
          connections[j].processedQueue == old(connections[j].processedQueue) &&
          connections[j].identity == old(connections[j].identity) &&
          connections[j].greetings == old(connections[j].greetings)
      {
        var conn := connections[i];
        if conn != null {
          conn.FrameTick();
        }
        i := i - 1;
      }
    }
  }
}
