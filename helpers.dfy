/** Rendering a key path as a chain of Python subscripts (`['a']['b']`). */
module Helpers {
  import opened Values

  /** One key of a path: `['` + str(k) + `']`. */
  function KeyStr(k: Value): string {
    "['" + PyStr(k) + "']"
  }

  /** keylist2str: the subscripts of all keys, in list order. */
  function KeyListToStr(keys: seq<Value>): (r: string)
    ensures r == "" <==> keys == []
    ensures |r| >= 4 * |keys|
    decreases keys
  {
    if keys == [] then "" else KeyStr(keys[0]) + KeyListToStr(keys[1..])
  }

  /** Sum over the keys of the length of their text form plus the four bracket and quote characters. */
  function RenderedLength(keys: seq<Value>): nat
    decreases keys
  {
    if keys == [] then 0 else |PyStr(keys[0])| + 4 + RenderedLength(keys[1..])
  }

  /** Rendering distributes over concatenation of key paths. */
  lemma {:induction false} KeyListConcat(a: seq<Value>, b: seq<Value>)
    ensures KeyListToStr(a + b) == KeyListToStr(a) + KeyListToStr(b)
    decreases a
  {
    if a == [] {
      assert a + b == b;
    } else {
      assert (a + b)[0] == a[0];
      assert (a + b)[1..] == a[1..] + b;
      KeyListConcat(a[1..], b);
    }
  }

  /** The key at position i is rendered between the renderings of the keys before and after it. */
  lemma {:induction false} KeyListAt(keys: seq<Value>, i: nat)
    requires i < |keys|
    ensures KeyListToStr(keys) == KeyListToStr(keys[..i]) + KeyStr(keys[i]) + KeyListToStr(keys[i + 1..])
  {
    var rest := [keys[i]] + keys[i + 1..];
    assert keys == keys[..i] + rest;
    assert rest[1..] == keys[i + 1..];
    KeyListConcat(keys[..i], rest);
  }

  /** The output length is the sum over the keys of len(str(k)) + 4. */
  lemma {:induction false} KeyListLength(keys: seq<Value>)
    ensures |KeyListToStr(keys)| == RenderedLength(keys)
    decreases keys
  {
    if keys != [] {
      KeyListLength(keys[1..]);
    }
  }
}
