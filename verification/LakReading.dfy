/** What arrives of a TOKEN: the list as its addressee reads it, and when the list makes the
    addressee send the token back. */
module LakReading {
  import opened Priority
  import opened LakProtocol
  import opened LakCodec

  /** Reading the printed TOKEN ends. */
  predicate Readable(t: Token) {
    0 <= LastNumber(t.to, Sorted(t.reqs)) <= 9
  }

  /** The TOKEN as its addressee reads it, if reading ends. */
  function AsRead(t: Token, unset: int): Token {
    Token(t.from, t.to, AsEntries(InsertAll(AllComeBack(Sorted(t.reqs))), unset))
  }

  /** This is what decoding the printed text gives. */
  lemma AsReadIsTheReading(t: Token, unset: int)
    ensures var r := ReadingOf(EncodeToken(t.from, t.to, Sorted(t.reqs)), unset);
            if Readable(t) then r.TokenMessage? && Token(r.from, r.to, AsEntries(r.list, unset)) == AsRead(t, unset)
            else r.Endless?
  {
    TokenReading(t.from, t.to, Sorted(t.reqs), unset);
  }

  /** A list of requests is read as it was sent. */
  lemma RequestsReadTheSame(t: Token, unset: int)
    requires forall k :: k in t.reqs ==> t.reqs[k].Req? && t.reqs[k].AsKey() == k
    ensures AsRead(t, unset) == t
  {
    RequestListComesBack(t.reqs);
    SameRequests(t.reqs, unset);
  }

  /** The key under which an entry is stored after reading: a relayed request takes the relay's id
      for its number. */
  function ReadKey(e: Entry): Key { ParsedKey(ComesBack(e)) }

  lemma {:induction false} InsertedKeys(ps: seq<Parsed>)
    ensures InsertAll(ps).Keys == set p | p in ps :: ParsedKey(p)
  {
    if ps != [] {
      var most, last := ps[..|ps| - 1], ps[|ps| - 1];
      InsertedKeys(most);
      assert ps == most + [last];
      assert (set p | p in ps :: ParsedKey(p)) == (set p | p in most :: ParsedKey(p)) + {ParsedKey(last)};
    }
  }

  lemma {:induction false} SortedEntries(list: TokenList, e: Entry)
    ensures e in Sorted(list) <==> exists k :: k in list && list[k] == e
    decreases |list|
  {
    if list != map[] {
      assert list.Keys != {};
      var k := First(list.Keys);
      var rest := list - {k};
      SortedEntries(rest, e);
      forall j | j in list && j != k ensures j in rest && rest[j] == list[j] {
      }
      assert Sorted(list) == [list[k]] + Sorted(rest);
    }
  }

  /** The printed order: by key, each entry once. */
  lemma {:induction false} SortedAscends(list: TokenList)
    requires forall k :: k in list ==> list[k].AsKey() == k
    ensures |Sorted(list)| == |list|
    ensures forall i, j :: 0 <= i < j < |list| ==> Before(Sorted(list)[i].AsKey(), Sorted(list)[j].AsKey())
    decreases |list|
  {
    if list != map[] {
      assert list.Keys != {};
      var k := First(list.Keys);
      var rest := list - {k};
      SortedAscends(rest);
      assert rest.Keys == list.Keys - {k} && |rest| == |list| - 1;
      assert Sorted(list) == [list[k]] + Sorted(rest);
      forall j | 0 <= j < |rest| ensures Before(k, Sorted(rest)[j].AsKey()) {
        SortedEntries(rest, Sorted(rest)[j]);
      }
    }
  }

  lemma ReadKeys(t: Token, unset: int, key: Key)
    ensures key in AsRead(t, unset).reqs <==> exists k :: k in t.reqs && ReadKey(t.reqs[k]) == key
  {
    var es := Sorted(t.reqs);
    InsertedKeys(AllComeBack(es));
    if k :| k in t.reqs && ReadKey(t.reqs[k]) == key {
      SortedEntries(t.reqs, t.reqs[k]);
      var i :| 0 <= i < |es| && es[i] == t.reqs[k];
      assert AllComeBack(es)[i] in AllComeBack(es);
    }
    if key in AsRead(t, unset).reqs {
      var p :| p in AllComeBack(es) && ParsedKey(p) == key;
      var i :| 0 <= i < |es| && AllComeBack(es)[i] == p;
      assert es[i] in es;
      SortedEntries(t.reqs, es[i]);
    }
  }

  lemma EmptyAsRead(t: Token, unset: int)
    ensures AsRead(t, unset).reqs == map[] <==> t.reqs == map[]
  {
    if k :| k in t.reqs {
      ReadKeys(t, unset, ReadKey(t.reqs[k]));
    } else {
      assert t.reqs == map[];
      RequestsReadTheSame(t, unset);
    }
  }

  /** The addressee bounces a TOKEN it has read: the list begins with somebody else's request. */
  predicate Bounces(t: Token, unset: int) {
    AsRead(t, unset).reqs != map[] && First(AsRead(t, unset).reqs.Keys).from != t.to
  }

  /** Some entry of another node comes, as it is read, before all entries of the addressee. */
  ghost predicate Overtaken(t: Token) {
    exists k :: k in t.reqs && t.reqs[k].from != t.to && BeforeAllOf(t, ReadKey(t.reqs[k]))
  }

  ghost predicate BeforeAllOf(t: Token, key: Key) {
    forall k :: k in t.reqs && t.reqs[k].from == t.to ==> Before(key, ReadKey(t.reqs[k]))
  }

  /** Exactly when a TOKEN bounces. */
  lemma BounceIff(t: Token, unset: int)
    ensures Bounces(t, unset) <==> Overtaken(t)
  {
    var keys := AsRead(t, unset).reqs.Keys;
    forall key ensures key in keys <==> exists k :: k in t.reqs && ReadKey(t.reqs[k]) == key {
      ReadKeys(t, unset, key);
    }
    assert forall k :: k in t.reqs ==> ReadKey(t.reqs[k]) in keys;
    if keys != {} {
      var first := First(keys);
      if first.from != t.to {
        var k :| k in t.reqs && ReadKey(t.reqs[k]) == first;
        forall j | j in t.reqs && t.reqs[j].from == t.to ensures Before(first, ReadKey(t.reqs[j])) {
          assert ReadKey(t.reqs[j]) in keys;
        }
        assert BeforeAllOf(t, ReadKey(t.reqs[k]));
      } else {
        var own :| own in t.reqs && ReadKey(t.reqs[own]) == first;
        forall k | k in t.reqs && t.reqs[k].from != t.to ensures !BeforeAllOf(t, ReadKey(t.reqs[k])) {
          assert ReadKey(t.reqs[k]) in keys && t.reqs[own].from == t.to;
        }
      }
    }
  }
}
