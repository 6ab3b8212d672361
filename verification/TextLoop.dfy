/** A loop that reads entries from a text until at most one character is left, whatever its
    body reads. It need not end; this module says when it does and what it reads. */
module TextLoop {
  import opened Options

  /** A loop body: what one pass reads from a text and the text it leaves. */
  type Body<E> = string -> (E, string)

  /** A pass shortens every text that has a space and changes no other. */
  ghost predicate Consuming<E>(body: Body<E>) {
    forall s :: if ' ' in s then |body(s).1| < |s| else body(s).1 == s
  }

  /** The text after `k` passes. */
  function Left<E>(body: Body<E>, s: string, k: nat): string {
    if k == 0 then s else body(Left(body, s, k - 1)).1
  }

  /** `while (msgstr.length() > 1)` ends. */
  ghost predicate Stops<E>(body: Body<E>, s: string) {
    exists k :: |Left(body, s, k)| <= 1
  }

  function Prefixed<E>(first: seq<E>, rest: Option<seq<E>>): Option<seq<E>> {
    if rest.None? then None else Some(first + rest.value)
  }

  /** What the loop reads; None when a pass does not shorten the text. */
  function Parse<E>(body: Body<E>, s: string): Option<seq<E>>
    decreases |s|
  {
    if |s| <= 1 then Some([])
    else if |body(s).1| >= |s| then None
    else
      Prefixed([body(s).0], Parse(body, body(s).1))
  }

  lemma {:induction false} LeftOfLeft<E>(body: Body<E>, s: string, k: nat)
    ensures Left(body, s, k + 1) == Left(body, body(s).1, k)
  {
    if k > 0 {
      LeftOfLeft(body, s, k - 1);
    }
  }

  lemma {:induction false} Stuck<E>(body: Body<E>, s: string, k: nat)
    requires body(s).1 == s
    ensures Left(body, s, k) == s
  {
    if k > 0 {
      Stuck(body, s, k - 1);
    }
  }

  lemma {:induction false} StopsIffParsed<E>(body: Body<E>, s: string)
    requires Consuming(body)
    ensures Stops(body, s) <==> Parse(body, s).Some?
    decreases |s|
  {
    if |s| <= 1 {
      assert |Left(body, s, 0)| <= 1;
    } else if ' ' !in s {
      forall k: nat ensures |Left(body, s, k)| > 1 {
        Stuck(body, s, k);
      }
    } else {
      StopsIffParsed(body, body(s).1);
      StopsLater(body, s);
    }
  }

  lemma StopsLater<E>(body: Body<E>, s: string)
    requires |s| > 1
    ensures Stops(body, s) <==> Stops(body, body(s).1)
  {
    if Stops(body, s) {
      var k: nat :| |Left(body, s, k)| <= 1;
      LeftOfLeft(body, s, k - 1);
    }
    if Stops(body, body(s).1) {
      var k: nat :| |Left(body, body(s).1, k)| <= 1;
      LeftOfLeft(body, s, k);
    }
  }

  lemma {:induction false} ParseReads<E>(body: Body<E>, s: string)
    requires Parse(body, s).Some?
    ensures var n := |Parse(body, s).value|;
            && |Left(body, s, n)| <= 1
            && forall k :: 0 <= k < n ==>
                 |Left(body, s, k)| > 1 && Parse(body, s).value[k] == body(Left(body, s, k)).0
    decreases |s|
  {
    if |s| > 1 {
      var left := body(s).1;
      ParseReads(body, left);
      var n := |Parse(body, left).value|;
      LeftOfLeft(body, s, n);
      forall k | 0 <= k < n + 1
        ensures |Left(body, s, k)| > 1 && Parse(body, s).value[k] == body(Left(body, s, k)).0
      {
        if k > 0 {
          LeftOfLeft(body, s, k - 1);
        }
      }
    }
  }

  /** `Parse` describes the loop on every text: it ends exactly when `Parse` gives a list, and
      then that list is what the passes before the end read. */
  lemma ParseIsTheLoop<E>(body: Body<E>, s: string)
    requires Consuming(body)
    ensures Stops(body, s) <==> Parse(body, s).Some?
    ensures Parse(body, s).Some? ==>
              var n := |Parse(body, s).value|;
              && |Left(body, s, n)| <= 1
              && forall k :: 0 <= k < n ==>
                   |Left(body, s, k)| > 1 && Parse(body, s).value[k] == body(Left(body, s, k)).0
  {
    StopsIffParsed(body, s);
    if Parse(body, s).Some? {
      ParseReads(body, s);
    }
  }

  // ----- joined texts

  function Join(texts: seq<string>): string
    requires texts != []
  {
    if |texts| == 1 then texts[0] else texts[0] + (" " + Join(texts[1..]))
  }

  lemma {:induction false} JoinMore(texts: seq<string>, last: string)
    ensures Join(texts + [last]) == if texts == [] then last else Join(texts) + (" " + last)
    decreases |texts|
  {
    if |texts| == 0 {
      assert texts + [last] == [last];
    } else {
      assert (texts + [last])[1..] == texts[1..] + [last];
      JoinMore(texts[1..], last);
    }
  }

  /** `body` reads `text` as `entry`, with more text after it or, leaving `left`, at the end. */
  ghost predicate Reads<E>(body: Body<E>, text: string, entry: E, left: string) {
    && |left| < |text| && |text| > 1
    && (forall more :: body(text + (" " + more)) == (entry, more))
    && body(text) == (entry, left)
  }

  lemma ConsAppend<E>(a: seq<E>, b: seq<E>)
    requires a != []
    ensures a + b == [a[0]] + (a[1..] + b)
  {
  }

  lemma PrefixedNone<E>(first: seq<E>)
    ensures Prefixed(first, Some([])) == Some(first)
  {
    assert first + [] == first;
  }

  lemma PrefixedTwice<E>(first: seq<E>, rest: Option<seq<E>>)
    requires first != []
    ensures Prefixed(first, rest) == Prefixed([first[0]], Prefixed(first[1..], rest))
  {
    if rest.Some? {
      ConsAppend(first, rest.value);
    }
  }

  lemma ParseOnly<E>(body: Body<E>, text: string, entry: E, left: string)
    requires Reads(body, text, entry, left)
    ensures Parse(body, text) == Prefixed([entry], Parse(body, left))
  {
  }

  lemma ParseFirst<E>(body: Body<E>, text: string, more: string, entry: E, left: string)
    requires Reads(body, text, entry, left)
    ensures Parse(body, text + (" " + more)) == Prefixed([entry], Parse(body, more))
  {
    assert body(text + (" " + more)) == (entry, more);
  }

  /** A joined text is read entry by entry; how it ends is up to what the last entry leaves. */
  lemma {:induction false} ParseJoined<E>(
      body: Body<E>, texts: seq<string>, entries: seq<E>, lefts: seq<string>)
    requires texts != [] && |texts| == |entries| == |lefts|
    requires forall i :: 0 <= i < |texts| ==> Reads(body, texts[i], entries[i], lefts[i])
    ensures Parse(body, Join(texts)) == Prefixed(entries, Parse(body, lefts[|lefts| - 1]))
    decreases |texts|
  {
    assert Reads(body, texts[0], entries[0], lefts[0]);
    if |texts| == 1 {
      assert entries == [entries[0]];
      ParseOnly(body, texts[0], entries[0], lefts[0]);
    } else {
      ParseFirst(body, texts[0], Join(texts[1..]), entries[0], lefts[0]);
      ParseJoined(body, texts[1..], entries[1..], lefts[1..]);
      assert lefts[1..][|lefts[1..]| - 1] == lefts[|lefts| - 1];
      PrefixedTwice(entries, Parse(body, lefts[|lefts| - 1]));
    }
  }

  // ----- the loop as a program

  /** `read` has been read and `msg` is left. */
  ghost predicate Progress<E>(body: Body<E>, text: string, read: seq<E>, msg: string) {
    && (Parse(body, msg).Some? <==> Parse(body, text).Some?)
    && (Parse(body, msg).Some? ==> Parse(body, text).value == read + Parse(body, msg).value)
  }

  lemma ProgressStep<E>(body: Body<E>, text: string, read: seq<E>, msg: string)
    requires Progress(body, text, read, msg) && |msg| > 1 && |body(msg).1| < |msg|
    ensures Progress(body, text, read + [body(msg).0], body(msg).1)
  {
    var rest := Parse(body, body(msg).1);
    if rest.Some? {
      assert read + ([body(msg).0] + rest.value) == read + [body(msg).0] + rest.value;
    }
  }

  lemma ProgressEnd<E>(body: Body<E>, text: string, read: seq<E>, msg: string)
    requires Progress(body, text, read, msg)
    ensures |msg| <= 1 ==> Parse(body, text) == Some(read)
    ensures |msg| > 1 && body(msg).1 == msg ==> Parse(body, text).None?
  {
    assert read + [] == read;
  }
}
