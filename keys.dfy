/** The composite key builder: components joined with ':' and no escaping. */
module Keys {

  const Separator: char := ':'

  /** Joins the components with the separator, in order; no components give the empty string. */
  function GenerateKey(components: seq<string>): (key: string)
    ensures |components| == 0 ==> key == ""
    ensures |components| == 1 ==> key == components[0]
    ensures |components| >= 1 ==> |key| == TotalLength(components) + |components| - 1
  {
    if |components| == 0 then ""
    else if |components| == 1 then components[0]
    else components[0] + [Separator] + GenerateKey(components[1..])
  }

  /** The sum of the component lengths. */
  function TotalLength(components: seq<string>): nat
  {
    if |components| == 0 then 0 else |components[0]| + TotalLength(components[1..])
  }

  /** No component contains the separator. */
  predicate SeparatorFree(components: seq<string>)
  {
    forall i :: 0 <= i < |components| ==> Separator !in components[i]
  }

  /** The position of the first separator in s. */
  function FirstSeparator(s: string): (i: nat)
    requires Separator in s
    ensures i < |s| && s[i] == Separator && Separator !in s[..i]
  {
    if s[0] == Separator then 0 else 1 + FirstSeparator(s[1..])
  }

  /** A separator with none before it is the first one. */
  lemma {:induction false} FirstSeparatorAt(s: string, j: nat)
    requires j < |s| && s[j] == Separator && Separator !in s[..j]
    ensures FirstSeparator(s) == j
  {
    if j > 0 {
      assert s[0] == s[..j][0];
      assert s[1..][..j - 1] == s[1..j];
      FirstSeparatorAt(s[1..], j - 1);
    }
  }

  /** Cuts a key at every separator: the inverse of GenerateKey on non-empty separator-free lists. */
  function Split(key: string): (parts: seq<string>)
    ensures |parts| >= 1 && SeparatorFree(parts)
    decreases |key|
  {
    if Separator !in key then [key]
    else
      var i := FirstSeparator(key);
      [key[..i]] + Split(key[i + 1..])
  }

  /** Appending a component extends the key by the separator and that component. */
  lemma {:induction false} GenerateKeyAppend(components: seq<string>, last: string)
    requires |components| >= 1
    ensures GenerateKey(components + [last]) == GenerateKey(components) + [Separator] + last
  {
    if |components| == 1 {
      assert components + [last] == [components[0], last];
    } else {
      assert (components + [last])[1..] == components[1..] + [last];
      GenerateKeyAppend(components[1..], last);
    }
  }

  /** Splitting a key built from separator-free components gives those components back. */
  lemma {:induction false} SplitGenerateKey(components: seq<string>)
    requires |components| >= 1 && SeparatorFree(components)
    ensures Split(GenerateKey(components)) == components
  {
    if |components| > 1 {
      var head, key := components[0], GenerateKey(components);
      assert key == head + [Separator] + GenerateKey(components[1..]);
      assert key[|head|] == Separator;
      assert key[..|head|] == head;
      FirstSeparatorAt(key, |head|);
      assert key[|head| + 1..] == GenerateKey(components[1..]);
      SplitGenerateKey(components[1..]);
    }
  }

  /** Joining the parts of any string gives that string back. */
  lemma {:induction false} GenerateKeySplit(key: string)
    ensures GenerateKey(Split(key)) == key
    decreases |key|
  {
    if Separator in key {
      var i := FirstSeparator(key);
      var rest := Split(key[i + 1..]);
      GenerateKeySplit(key[i + 1..]);
      assert Split(key) == [key[..i]] + rest;
      assert ([key[..i]] + rest)[0] == key[..i] && ([key[..i]] + rest)[1..] == rest;
      assert GenerateKey(Split(key)) == key[..i] + [Separator] + GenerateKey(rest);
      assert key == key[..i] + [Separator] + key[i + 1..];
    }
  }

  /** Keys identify equally long lists of separator-free components. */
  lemma GenerateKeyInjective(a: seq<string>, b: seq<string>)
    requires |a| == |b| && SeparatorFree(a) && SeparatorFree(b)
    ensures GenerateKey(a) == GenerateKey(b) <==> a == b
  {
    if |a| >= 1 && GenerateKey(a) == GenerateKey(b) {
      SplitGenerateKey(a);
      SplitGenerateKey(b);
    }
  }

  /** In the key of two separator-free components the only separator sits right after the first. */
  lemma PairKeySeparator(a: string, b: string, j: nat)
    requires SeparatorFree([a, b])
    requires j < |GenerateKey([a, b])| && GenerateKey([a, b])[j] == Separator
    ensures j == |a|
  {
    var key := GenerateKey([a, b]);
    assert [a, b][0] == a && [a, b][1] == b;
    assert key == a + [Separator] + b;
  }

  /** A two-component key of separator-free components is the key of that pair only: whatever
      pair gives the same key is that pair. */
  lemma PairKeyUnique(a: string, b: string, c: string, d: string)
    requires SeparatorFree([a, b]) && GenerateKey([a, b]) == GenerateKey([c, d])
    ensures a == c && b == d
  {
    var key := GenerateKey([a, b]);
    assert [c, d][0] == c && [c, d][1] == d;
    assert key == c + [Separator] + d;
    assert key[|c|] == Separator;
    PairKeySeparator(a, b, |c|);
    assert [a, b][0] == a && [a, b][1] == b;
    assert c == key[..|a|] == a;
    assert d == key[|a| + 1..] == b;
  }

  /** Without escaping, distinct component lists can share a key. */
  lemma KeyCollisions()
    ensures ["a:b", "c"] != ["a", "b:c"] && GenerateKey(["a:b", "c"]) == GenerateKey(["a", "b:c"]) == "a:b:c"
    ensures [] != [""] && GenerateKey([]) == GenerateKey([""]) == ""
  {
    assert GenerateKey(["b:c"]) == "b:c";
    assert GenerateKey(["c"]) == "c";
    assert ["a:b", "c"][0] != ["a", "b:c"][0];
  }

  /** Empty components keep their place between separators. */
  lemma EmptyComponentsKept()
    ensures GenerateKey(["player", "", "stats"]) == "player::stats"
    ensures GenerateKey(["teamId", "season", "gameId"]) == "teamId:season:gameId"
  {
    assert GenerateKey(["", "stats"]) == ":stats";
    assert GenerateKey(["season", "gameId"]) == "season:gameId";
  }
}
