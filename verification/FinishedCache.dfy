// The blocks coloured already, the least recently asked for out first
// (highlightFinished, ui/src/highlight.tsx).
module FinishedCache {
  import opened Counting

  const MOST := 256

  /** What a block is kept under. */
  function Key(lang: string, code: string): string {
    lang + ['\0'] + code
  }

  /** Two blocks share a key only if a language's name holds a NUL. */
  lemma KeyTells(lang: string, code: string, other: string, text: string)
    requires '\0' !in lang && '\0' !in other && Key(lang, code) == Key(other, text)
    ensures lang == other && code == text
  {
    var a, b := Key(lang, code), Key(other, text);
    assert a[|lang|] == '\0' && b[|other|] == '\0';
    assert forall k :: 0 <= k < |lang| ==> a[k] == lang[k] != '\0';
    assert forall k :: 0 <= k < |other| ==> b[k] == other[k] != '\0';
    assert |lang| == |other|;
    assert lang == a[..|lang|] && other == b[..|other|];
    assert code == a[|lang| + 1..] && text == b[|other| + 1..];
  }

  /** And any such name does share one, with the part before its first NUL. */
  lemma NulCollides(lang: string, code: string) returns (other: string, text: string)
    requires '\0' in lang
    ensures '\0' !in other && other != lang && Key(lang, code) == Key(other, text)
  {
    var i := Position(lang, '\0');
    other, text := lang[..i], lang[i + 1..] + ['\0'] + code;
    assert lang == other + ['\0'] + lang[i + 1..];
  }

  function Without(order: seq<string>, key: string): (r: seq<string>)
    ensures forall k :: k in r <==> k in order && k != key
    ensures key !in order ==> r == order
  {
    if order == [] then []
    else if order[|order| - 1] == key then Without(order[..|order| - 1], key)
    else Without(order[..|order| - 1], key) + [order[|order| - 1]]
  }

  /** The keys held, oldest first, after one more request. */
  function After(order: seq<string>, key: string): seq<string> {
    if key in order then Without(order, key) + [key]
    else (if |order| >= MOST then order[1..] else order) + [key]
  }

  class Cache<T(!new)> {
    /** The grammar's colouring of a block: highlightBlock. */
    const block: (string, string) -> T
    /** A block's text as it is, with no language to colour it in. */
    const plain: string -> T
    var order: seq<string>
    var finished: map<string, T>

    /** The map's keys in order, each once, with what the grammar gives for its block. */
    ghost predicate Valid()
      reads this
    {
      && |order| <= MOST && (forall k :: k in finished <==> k in order)
      && (forall i, j :: 0 <= i < j < |order| ==> order[i] != order[j])
      && (forall lang, code :: Key(lang, code) in finished && '\0' !in lang ==>
          finished[Key(lang, code)] == block(lang, code))
    }

    constructor (block: (string, string) -> T, plain: string -> T)
      ensures Valid() && order == [] && this.block == block && this.plain == plain
    {
      this.block, this.plain := block, plain;
      order, finished := [], map[];
    }

    method Finished(code: string, lang: string) returns (nodes: T)
      requires Valid() && '\0' !in lang
      modifies this`order, this`finished
      ensures Valid()
      ensures lang == "" ==> nodes == plain(code) && order == old(order) && finished == old(finished)
      ensures lang != "" ==> nodes == block(lang, code) && order == After(old(order), Key(lang, code))
    {
      if lang == "" {
        return plain(code);
      }
      var key := Key(lang, code);
      WithoutOnce(order, key);
      if key in finished {
        nodes := finished[key];
        finished := finished - {key};
        order := Without(order, key);
        finished := finished[key := nodes];
        order := order + [key];
        return;
      }
      nodes := block(lang, code);
      forall other, text | Key(other, text) == key && '\0' !in other ensures block(other, text) == nodes {
        KeyTells(other, text, lang, code);
      }
      if |order| >= MOST {
        assert order == [order[0]] + order[1..];
        finished := finished - {order[0]};
        order := order[1..];
      }
      finished := finished[key := nodes];
      order := order + [key];
    }
  }

  lemma {:induction false} WithoutOnce(order: seq<string>, key: string)
    requires forall i, j :: 0 <= i < j < |order| ==> order[i] != order[j]
    ensures forall i, j :: 0 <= i < j < |Without(order, key)| ==> Without(order, key)[i] != Without(order, key)[j]
    ensures |Without(order, key)| == |order| - if key in order then 1 else 0
  {
    if order != [] {
      var init, last := order[..|order| - 1], order[|order| - 1];
      WithoutOnce(init, key);
      assert order == init + [last];
      assert last !in init;
      if last != key {
        assert forall i :: 0 <= i < |Without(init, key)| ==> Without(init, key)[i] in Without(init, key);
      }
    }
  }

  // ---- what is held ----

  /** Every key asked for, each once, the latest last. */
  function Recency(keys: seq<string>): seq<string> {
    if keys == [] then []
    else
      var key := keys[|keys| - 1];
      Without(Recency(keys[..|keys| - 1]), key) + [key]
  }

  /** When a key was last asked for. */
  function LastUse(keys: seq<string>, key: string): (i: int)
    ensures -1 <= i < |keys| && (i == -1 <==> key !in keys)
    ensures i >= 0 ==> keys[i] == key && forall k :: i < k < |keys| ==> keys[k] != key
  {
    if keys == [] then -1
    else if keys[|keys| - 1] == key then |keys| - 1
    else LastUse(keys[..|keys| - 1], key)
  }

  predicate Older(keys: seq<string>, a: string, b: string) {
    LastUse(keys, a) < LastUse(keys, b)
  }

  predicate ByLastUse(keys: seq<string>, order: seq<string>) {
    forall i, j :: 0 <= i < j < |order| ==> Older(keys, order[i], order[j])
  }

  lemma {:induction false} WithoutInOrder(order: seq<string>, key: string, keys: seq<string>)
    requires ByLastUse(keys, order)
    ensures ByLastUse(keys, Without(order, key))
  {
    hide Older;
    if order != [] {
      var n := |order| - 1;
      var init, last := order[..n], order[n];
      WithoutInOrder(init, key, keys);
      var r := Without(init, key);
      forall i | 0 <= i < |r| ensures Older(keys, r[i], last) {
        assert r[i] in r;
        var k :| 0 <= k < |init| && init[k] == r[i];
        assert Older(keys, order[k], order[n]);
      }
    }
  }

  lemma UseStays(keys: seq<string>, key: string, a: string)
    ensures LastUse(keys + [key], a) == if a == key then |keys| else LastUse(keys, a)
  {
    assert (keys + [key])[..|keys|] == keys;
  }

  /** The keys in the order of their last use. */
  lemma {:induction false} RecencyIsLastUse(keys: seq<string>)
    ensures forall k :: k in Recency(keys) <==> k in keys
    ensures ByLastUse(keys, Recency(keys))
  {
    if keys != [] {
      var n := |keys| - 1;
      var init, key := keys[..n], keys[n];
      RecencyIsLastUse(init);
      assert keys == init + [key];
      WithoutInOrder(Recency(init), key, init);
      LaterUse(init, Without(Recency(init), key), key);
    }
  }

  lemma LaterUse(keys: seq<string>, order: seq<string>, key: string)
    requires ByLastUse(keys, order) && key !in order
    ensures ByLastUse(keys + [key], order + [key])
  {
    hide LastUse;
    var all := order + [key];
    forall i, j | 0 <= i < j < |all| ensures Older(keys + [key], all[i], all[j]) {
      assert order[i] in order;
      UseStays(keys, key, all[i]);
      UseStays(keys, key, all[j]);
      if j < |order| {
        assert order[j] in order;
        assert Older(keys, order[i], order[j]);
      }
    }
  }

  /** The last MOST of a list. */
  function Newest(order: seq<string>): (r: seq<string>)
    ensures |r| == if |order| <= MOST then |order| else MOST
    ensures r <= order || |order| > MOST
  {
    if |order| <= MOST then order else order[|order| - MOST..]
  }

  function Held(keys: seq<string>): seq<string> {
    if keys == [] then [] else After(Held(keys[..|keys| - 1]), keys[|keys| - 1])
  }

  lemma {:induction false} WithoutSplit(a: seq<string>, b: seq<string>, key: string)
    ensures Without(a + b, key) == Without(a, key) + Without(b, key)
  {
    if b == [] {
      assert a + b == a;
    } else {
      assert (a + b)[..|a + b| - 1] == a + b[..|b| - 1];
      WithoutSplit(a, b[..|b| - 1], key);
    }
  }

  /** One more request keeps the newest. */
  lemma AfterNewest(order: seq<string>, key: string)
    requires forall i, j :: 0 <= i < j < |order| ==> order[i] != order[j]
    ensures After(Newest(order), key) == Newest(Without(order, key) + [key])
  {
    var held := Newest(order);
    var gone := order[..|order| - |held|];
    assert order == gone + held;
    if key in held {
      KeyHeld(gone, held, key);
      HitNewest(gone, held, key);
    } else {
      MissNewest(gone, held, key);
    }
  }

  lemma HitNewest(gone: seq<string>, held: seq<string>, key: string)
    requires key in held && key !in gone && (forall i, j :: 0 <= i < j < |held| ==> held[i] != held[j])
    requires |held| == MOST || (|held| < MOST && gone == [])
    ensures After(held, key) == Newest(Without(gone + held, key) + [key])
  {
    hide Without;
    WithoutSplit(gone, held, key);
    WithoutOnce(held, key);
    var r := Without(held, key) + [key];
    NewestEnd(gone, r);
    assert Without(gone + held, key) + [key] == gone + r;
  }

  lemma MissNewest(gone: seq<string>, held: seq<string>, key: string)
    requires key !in held && (|held| == MOST || (|held| < MOST && gone == []))
    ensures After(held, key) == Newest(Without(gone + held, key) + [key])
  {
    hide Without;
    WithoutSplit(gone, held, key);
    var before := Without(gone, key);
    assert Without(held, key) == held;
    if |held| < MOST {
      assert before == [] && before + held == held;
    } else {
      var r := held[1..] + [key];
      NewestEnd(before + [held[0]], r);
      assert before + held + [key] == (before + [held[0]]) + r;
    }
  }

  lemma NewestEnd(gone: seq<string>, held: seq<string>)
    requires |held| == MOST || (|held| <= MOST && gone == [])
    ensures Newest(gone + held) == held
  {
  }

  lemma KeyHeld(gone: seq<string>, held: seq<string>, key: string)
    requires key in held && forall i, j :: 0 <= i < j < |gone + held| ==> (gone + held)[i] != (gone + held)[j]
    ensures key !in gone
  {
    var j :| 0 <= j < |held| && held[j] == key;
    assert (gone + held)[|gone| + j] == key;
    assert forall i :: 0 <= i < |gone| ==> (gone + held)[i] == gone[i];
  }

  lemma {:induction false} RecencyOnce(keys: seq<string>)
    ensures forall i, j :: 0 <= i < j < |Recency(keys)| ==> Recency(keys)[i] != Recency(keys)[j]
  {
    RecencyIsLastUse(keys);
  }

  /** After any requests the blocks held are the most recently asked for, at most MOST
      of them, in the order of their last use. */
  lemma {:induction false} HoldsNewest(keys: seq<string>)
    ensures Held(keys) == Newest(Recency(keys))
  {
    if keys != [] {
      var init := keys[..|keys| - 1];
      HoldsNewest(init);
      RecencyOnce(init);
      AfterNewest(Recency(init), keys[|keys| - 1]);
    }
  }
}
