/** The priority order of requests: smaller sequence number first, ties broken by
    node id. It is the `operator<` of both `Message` structs, so it also decides
    which elements a `std::set<Message>` regards as the same. */
module Priority {

  datatype Key = Key(seqno: int, from: int)

  predicate Before(a: Key, b: Key) {
    a.seqno < b.seqno || (a.seqno == b.seqno && a.from < b.from)
  }

  predicate IsFirst(s: set<Key>, k: Key) {
    k in s && forall other :: other in s ==> other == k || Before(k, other)
  }

  lemma {:induction false} FirstExists(s: set<Key>)
    requires s != {}
    ensures exists k :: IsFirst(s, k)
    decreases |s|
  {
    var x :| x in s;
    var rest := s - {x};
    if rest == {} {
      forall other | other in s ensures other == x {
        assert other != x ==> other in rest;
      }
      assert IsFirst(s, x);
    } else {
      FirstExists(rest);
      var y :| IsFirst(rest, y);
      var k := if Before(x, y) then x else y;
      forall other | other in s ensures other == k || Before(k, other) {
        assert other == x || other in rest;
      }
      assert IsFirst(s, k);
    }
  }

  /** `*s.begin()` */
  function First(s: set<Key>): (k: Key)
    requires s != {}
    ensures IsFirst(s, k)
  {
    FirstExists(s);
    var k :| k in s && forall other :: other in s ==> other == k || Before(k, other);
    k
  }

  lemma FirstIsUnique(s: set<Key>, k: Key)
    requires IsFirst(s, k)
    ensures First(s) == k
  {
  }

  /** The entries sent by one node. */
  function SentBy(s: set<Key>, from: int): set<Key> {
    set k | k in s && k.from == from
  }

  /** A scan from `begin()` that erases the first entry sent by `from`, if there is one. */
  function EraseFirstFrom(s: set<Key>, from: int): (rest: set<Key>)
    ensures rest <= s
    ensures SentBy(s, from) == {} ==> rest == s
    ensures SentBy(s, from) != {} ==> exists k :: IsFirst(SentBy(s, from), k) && rest == s - {k}
  {
    var mine := SentBy(s, from);
    if mine == {} then s else
    assert IsFirst(mine, First(mine));
    s - {First(mine)}
  }
}
