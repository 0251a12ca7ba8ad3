/** Credential rotation (index.js lines 38-55): two key pools read once from
    the environment (`API_KEYS` for OpenRouter, `GEMINI_KEYS` for Gemini),
    each with its own round-robin cursor. */
module Keys {
  import opened Strings
  import opened Js

  /** `s.split(',').map(k => k.trim())`. */
  function TrimAll(parts: seq<string>): (r: seq<string>)
    ensures |r| == |parts| && forall k :: 0 <= k < |parts| ==> r[k] == Trim(parts[k])
  {
    if |parts| == 0 then [] else [Trim(parts[0])] + TrimAll(parts[1..])
  }

  /** `.filter(Boolean)` on strings: keeps the non-empty ones, in order. */
  function DropEmpty(xs: seq<string>): (r: seq<string>)
    ensures |r| <= |xs|
    ensures forall x :: x in r ==> x != "" && x in xs
  {
    if |xs| == 0 then []
    else if xs[0] == "" then DropEmpty(xs[1..])
    else [xs[0]] + DropEmpty(xs[1..])
  }

  /** How many of `xs` are non-empty. */
  function CountNonEmpty(xs: seq<string>): nat {
    if |xs| == 0 then 0
    else CountNonEmpty(xs[..|xs| - 1]) + (if xs[|xs| - 1] == "" then 0 else 1)
  }

  /** A key list from the environment: unset or empty gives no keys; otherwise
      the comma-separated entries, trimmed, with the empty ones dropped. */
  function ParseKeys(env: Option<string>): (keys: seq<string>)
    ensures env.None? || env.value == "" ==> keys == []
    ensures forall k :: k in keys ==> k != ""
  {
    match env
    case None => []
    case Some(s) => if s == "" then [] else DropEmpty(TrimAll(Split(s, ',')))
  }

  lemma {:induction false} DropEmptyAppend(xs: seq<string>, x: string)
    ensures DropEmpty(xs + [x]) == DropEmpty(xs) + (if x == "" then [] else [x])
  {
    if |xs| > 0 {
      assert (xs + [x])[1..] == xs[1..] + [x];
      DropEmptyAppend(xs[1..], x);
    } else {
      assert xs + [x] == [x];
    }
  }

  /** Where `filter` puts each survivor: the non-empty entry `i` lands at
      the position given by the number of non-empty entries before it. */
  lemma {:induction false} DropEmptyAt(xs: seq<string>)
    ensures |DropEmpty(xs)| == CountNonEmpty(xs)
    ensures forall i :: 0 <= i < |xs| && xs[i] != "" ==>
              CountNonEmpty(xs[..i]) < |DropEmpty(xs)| && DropEmpty(xs)[CountNonEmpty(xs[..i])] == xs[i]
  {
    if |xs| > 0 {
      var init, last := xs[..|xs| - 1], xs[|xs| - 1];
      DropEmptyAt(init);
      assert xs == init + [last];
      DropEmptyAppend(init, last);
      var kept := DropEmpty(xs);
      assert kept == DropEmpty(init) + (if last == "" then [] else [last]);
      forall i | 0 <= i < |xs| && xs[i] != ""
        ensures CountNonEmpty(xs[..i]) < |kept| && kept[CountNonEmpty(xs[..i])] == xs[i]
      {
        if i < |xs| - 1 {
          assert xs[..i] == init[..i] && xs[i] == init[i];
        } else {
          assert xs[..i] == init;
        }
      }
    }
  }

  /** Every kept key is the trim of some entry of the list. */
  lemma {:induction false} DropEmptyTrimAllFrom(parts: seq<string>)
    ensures forall k :: k in DropEmpty(TrimAll(parts)) ==>
              k != "" && exists p :: p in parts && Trim(p) == k
  {
    if |parts| > 0 {
      DropEmptyTrimAllFrom(parts[1..]);
      var t := TrimAll(parts);
      assert t[1..] == TrimAll(parts[1..]);
      forall k | k in DropEmpty(t) ensures k != "" && exists p :: p in parts && Trim(p) == k {
        if t[0] != "" && k == t[0] {
          assert parts[0] in parts && Trim(parts[0]) == k;
        } else {
          assert k in DropEmpty(t[1..]);
          var p :| p in parts[1..] && Trim(p) == k;
          assert p in parts;
        }
      }
    }
  }

  /** The parsed pool keeps the order of the comma-separated entries: the
      entry `i` whose trim is non-empty appears, trimmed, at the position
      given by the number of such entries before it, and nothing else is in
      the pool. */
  lemma ParseKeysOrder(s: string)
    requires s != ""
    ensures var trimmed := TrimAll(Split(s, ','));
            |ParseKeys(Some(s))| == CountNonEmpty(trimmed) &&
            forall i :: 0 <= i < |trimmed| && trimmed[i] != "" ==>
              CountNonEmpty(trimmed[..i]) < |ParseKeys(Some(s))| &&
              ParseKeys(Some(s))[CountNonEmpty(trimmed[..i])] == Trim(Split(s, ',')[i])
  {
    DropEmptyAt(TrimAll(Split(s, ',')));
  }

  /** Every parsed key is non-empty, has no white space at its ends, holds no
      comma, and is an entry of the list with its white space trimmed. */
  lemma ParsedKeysAreClean(env: Option<string>)
    ensures forall k :: k in ParseKeys(env) ==>
              k != "" && Trimmed(k) && ',' !in k &&
              exists p :: p in Split(env.value, ',') && Trim(p) == k
  {
    if env.Some? && env.value != "" {
      var parts := Split(env.value, ',');
      DropEmptyTrimAllFrom(parts);
      forall k | k in ParseKeys(env) ensures ',' !in k {
        var p :| p in parts && Trim(p) == k;
        TrimKeepsNonSpace(p, ',');
      }
    }
  }

  lemma {:induction false} DropEmptyOfNonEmpty(xs: seq<string>)
    requires forall x :: x in xs ==> x != ""
    ensures DropEmpty(xs) == xs
  {
    if |xs| > 0 {
      assert xs[0] in xs;
      assert forall x :: x in xs[1..] ==> x in xs;
      DropEmptyOfNonEmpty(xs[1..]);
    }
  }

  lemma {:induction false} TrimAllOfTrimmed(xs: seq<string>)
    requires forall x :: x in xs ==> Trimmed(x)
    ensures TrimAll(xs) == xs
  {
    if |xs| > 0 {
      assert xs[0] in xs;
      assert forall x :: x in xs[1..] ==> x in xs;
      TrimOfTrimmed(xs[0]);
      TrimAllOfTrimmed(xs[1..]);
    }
  }

  /** Writing a list of clean keys into the environment comma-separated and
      parsing it gives the same list back. */
  lemma ParseKeysOfJoin(keys: seq<string>)
    requires forall k :: k in keys ==> k != "" && Trimmed(k) && ',' !in k
    ensures ParseKeys(Some(Join(keys, ","))) == keys
  {
    if |keys| > 0 {
      assert keys[0] in keys;
      assert |Join(keys, ",")| >= |keys[0]| > 0;
      SplitJoin(keys, ',');
      TrimAllOfTrimmed(keys);
      DropEmptyOfNonEmpty(keys);
    }
  }

  /** One call of `getNextApiKey` / `getNextGeminiKey` on a pool and a cursor:
      the key handed out (none for an empty pool) and the new cursor. */
  function Step(pool: seq<string>, cursor: nat): (res: (Option<string>, nat))
    requires cursor == 0 || cursor < |pool|
    ensures res.1 == 0 || res.1 < |pool|
    ensures |pool| == 0 ==> res == (None, cursor)
    ensures |pool| > 0 ==> res.0 == Some(pool[cursor]) && res.1 == (cursor + 1) % |pool|
  {
    if |pool| == 0 then (None, cursor)
    else (Some(pool[cursor]), (cursor + 1) % |pool|)
  }

  /** The keys handed out by `n` consecutive calls starting at `cursor`, and
      the cursor they leave. */
  function Run(pool: seq<string>, cursor: nat, n: nat): (res: (seq<Option<string>>, nat))
    requires cursor == 0 || cursor < |pool|
    ensures |res.0| == n && (res.1 == 0 || res.1 < |pool|)
    decreases n
  {
    if n == 0 then ([], cursor)
    else
      var (k, next) := Step(pool, cursor);
      var (ks, last) := Run(pool, next, n - 1);
      ([k] + ks, last)
  }

  /** Round robin: call `i` (counting from 0) of a run hands out the key
      `i` places after the start, wrapping around the pool. */
  lemma {:induction false} RunRotates(pool: seq<string>, cursor: nat, n: nat)
    requires 0 <= cursor < |pool|
    ensures forall i :: 0 <= i < n ==> Run(pool, cursor, n).0[i] == Some(pool[(cursor + i) % |pool|])
    ensures Run(pool, cursor, n).1 == (cursor + n) % |pool|
    decreases n
  {
    var size := |pool|;
    assert cursor % size == cursor;
    if n > 0 {
      var next := (cursor + 1) % size;
      RunRotates(pool, next, n - 1);
      var run := Run(pool, cursor, n).0;
      var ks := Run(pool, next, n - 1).0;
      assert run == [Some(pool[cursor])] + ks;
      forall i | 1 <= i < n ensures run[i] == Some(pool[(cursor + i) % size]) {
        assert run[i] == ks[i - 1];
        ShiftMod(cursor, i, size);
      }
      ShiftMod(cursor, n, size);
    }
  }

  /** Moving the cursor one place and then `i - 1` more is moving it `i`. */
  lemma ShiftMod(c: nat, i: nat, size: nat)
    requires c < size && i >= 1
    ensures ((c + 1) % size + (i - 1)) % size == (c + i) % size
  {
    if c + 1 < size {
      ModUnique(c + 1, size, 0, c + 1);
    } else {
      ModUnique(c + 1, size, 1, 0);
      ModPlusN(i - 1, size);
      assert c + i == i - 1 + size;
    }
  }

  lemma MulMono(d: int, n: int)
    requires n > 0
    ensures d >= 1 ==> d * n >= n
    ensures d <= -1 ==> d * n <= -n
  {
  }

  /** The remainder is the `r` of any decomposition `x == q * n + r` with
      `0 <= r < n`. */
  lemma ModUnique(x: int, n: int, q: int, r: int)
    requires n > 0 && 0 <= r < n && x == q * n + r
    ensures x % n == r
  {
    var d := q - x / n;
    assert d * n == x % n - r by {
      assert x == (x / n) * n + x % n;
      assert q * n - (x / n) * n == d * n;
    }
    MulMono(d, n);
  }

  /** Adding the modulus does not change the remainder. */
  lemma ModPlusN(x: nat, n: nat)
    requires n > 0
    ensures (x + n) % n == x % n
  {
    var q := x / n;
    assert x == q * n + x % n;
    assert (q + 1) * n == q * n + n;
    ModUnique(x + n, n, q + 1, x % n);
  }

  /** A non-empty pool of N keys: N calls from a fresh cursor hand out every
      key once, in pool order, and leave the cursor where it started, so the
      next call repeats the first key. */
  lemma RoundRobin(pool: seq<string>)
    requires |pool| > 0
    ensures |Run(pool, 0, |pool|).0| == |pool|
    ensures forall i :: 0 <= i < |pool| ==> Run(pool, 0, |pool|).0[i] == Some(pool[i])
    ensures Run(pool, 0, |pool|).1 == 0
    ensures Run(pool, 0, |pool| + 1).0[|pool|] == Some(pool[0])
  {
    var n := |pool|;
    RunRotates(pool, 0, n);
    RunRotates(pool, 0, n + 1);
    forall i | 0 <= i < n ensures Run(pool, 0, n).0[i] == Some(pool[i]) {
      ModUnique(0 + i, n, 0, i);
    }
    ModUnique(0 + n, n, 1, 0);
  }

  /** An empty pool never hands out a key and its cursor never moves. */
  lemma {:induction false} EmptyPoolRun(n: nat)
    ensures forall i :: 0 <= i < n ==> Run([], 0, n).0[i] == None
    ensures Run([], 0, n).1 == 0
  {
    if n > 0 {
      EmptyPoolRun(n - 1);
      assert Run([], 0, n).0 == [None] + Run([], 0, n - 1).0;
    }
  }

  /** The module-level state of index.js lines 39-42: both pools, which are
      never reassigned after start-up, and their cursors. */
  class KeyPools {
    const apiKeys: seq<string>
    const geminiKeys: seq<string>
    var keyIndex: nat
    var geminiKeyIndex: nat

    ghost predicate Valid()
      reads this
    {
      && (keyIndex == 0 || keyIndex < |apiKeys|)
      && (geminiKeyIndex == 0 || geminiKeyIndex < |geminiKeys|)
    }

    /** Start-up: parse both environment variables, both cursors at 0. */
    constructor (apiKeysEnv: Option<string>, geminiKeysEnv: Option<string>)
      ensures Valid()
      ensures apiKeys == ParseKeys(apiKeysEnv) && geminiKeys == ParseKeys(geminiKeysEnv)
      ensures keyIndex == 0 && geminiKeyIndex == 0
    {
      apiKeys := ParseKeys(apiKeysEnv);
      geminiKeys := ParseKeys(geminiKeysEnv);
      keyIndex := 0;
      geminiKeyIndex := 0;
    }

    /** `getNextApiKey`: touches only the OpenRouter cursor. */
    method NextApiKey() returns (k: Option<string>)
      requires Valid()
      modifies this`keyIndex
      ensures Valid()
      ensures (k, keyIndex) == Step(apiKeys, old(keyIndex))
      ensures geminiKeyIndex == old(geminiKeyIndex)
    {
      if |apiKeys| == 0 {
        return None;
      }
      k := Some(apiKeys[keyIndex]);
      keyIndex := (keyIndex + 1) % |apiKeys|;
    }

    /** `getNextGeminiKey`: touches only the Gemini cursor. */
    method NextGeminiKey() returns (k: Option<string>)
      requires Valid()
      modifies this`geminiKeyIndex
      ensures Valid()
      ensures (k, geminiKeyIndex) == Step(geminiKeys, old(geminiKeyIndex))
      ensures keyIndex == old(keyIndex)
    {
      if |geminiKeys| == 0 {
        return None;
      }
      k := Some(geminiKeys[geminiKeyIndex]);
      geminiKeyIndex := (geminiKeyIndex + 1) % |geminiKeys|;
    }
  }
}
