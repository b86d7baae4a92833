/** The key texts of the step cache tell chains apart (src/plugins/replay/step_cache.py:74-76, 125-129,
    213-214; src/plugins/replay/contract.py:27-33): as long as the hash does not collide on the texts that
    were hashed to build two keys, equal keys mean equal scope and equal action list. */
module ChainKeys {
  import opened EnvSteps
  import opened ReplayProtocol

  /** SHA-256 as a hexadecimal digest, and the canonical JSON of scopes and actions. */
  datatype Codec = Codec(hash: string -> string, scopeText: Scope -> string, actionText: Action -> string)

  predicate IsHex(c: char) {
    '0' <= c <= '9' || 'a' <= c <= 'f'
  }

  const DIGEST_LENGTH := 64

  /** What is fixed about the three: digests are 64 hexadecimal digits, and a scope's JSON is an object that
      keeps its text and its number. */
  ghost predicate WellFormed(c: Codec) {
    && (forall t :: |c.hash(t)| == DIGEST_LENGTH && forall i :: 0 <= i < DIGEST_LENGTH ==> IsHex(c.hash(t)[i]))
    && (forall s :: |c.scopeText(s)| > 0 && c.scopeText(s)[0] == '{')
    && (forall s, s' :: c.scopeText(s) == c.scopeText(s') ==> s == s')
  }

  /** `_digest` after the actions of `chain`. */
  function Digest(c: Codec, scope: Scope, chain: seq<Action>): string {
    c.hash(Preimage(c, scope, chain))
  }

  function Preimage(c: Codec, scope: Scope, chain: seq<Action>): string
    decreases |chain|
  {
    if chain == [] then c.scopeText(scope)
    else c.hash(Preimage(c, scope, chain[..|chain| - 1])) + "|" + c.actionText(chain[|chain| - 1])
  }

  function EntryText(c: Codec, k: Key): string {
    "env:" + Digest(c, k.scope, k.chain)
  }

  function BlockedText(c: Codec, k: Key): string {
    EntryText(c, k) + ":live-only"
  }

  /** Every text hashed on the way to the digest of a chain. */
  function Hashed(c: Codec, scope: Scope, chain: seq<Action>): set<string>
    decreases |chain|
  {
    {Preimage(c, scope, chain)} + if chain == [] then {} else Hashed(c, scope, chain[..|chain| - 1])
  }

  ghost predicate CollisionFree(c: Codec, texts: set<string>) {
    forall x, y :: x in texts && y in texts && c.hash(x) == c.hash(y) ==> x == y
  }

  /** JSON loses nothing of these actions. (Not of all: an action may carry a timeout, and there are more numbers
      than texts.) */
  ghost predicate Lossless(c: Codec, actions: seq<Action>) {
    forall a, a' :: a in actions && a' in actions && c.actionText(a) == c.actionText(a') ==> a == a'
  }

  /** The digest has fixed length, so the separator splits the hashed text in one way only. */
  lemma SplitsOnce(d: string, t: string, d': string, t': string)
    requires |d| == |d'| && d + "|" + t == d' + "|" + t'
    ensures d == d' && t == t'
  {
    var x, y := d + "|" + t, d' + "|" + t';
    assert x[..|d|] == d && y[..|d|] == d' && x[|d| + 1..] == t && y[|d| + 1..] == t';
  }

  /** A hashed text tells whether it is a seed: only those begin with a brace. */
  lemma SeedsBeginWithABrace(c: Codec, scope: Scope, chain: seq<Action>)
    requires WellFormed(c)
    ensures var p := Preimage(c, scope, chain); |p| > 0 && (p[0] == '{' <==> chain == [])
  {
    if chain != [] {
      var d := Digest(c, scope, chain[..|chain| - 1]);
      assert IsHex(d[0]) && Preimage(c, scope, chain)[0] == d[0];
    }
  }

  lemma {:induction false} DigestDeterminesChain(c: Codec, scope: Scope, chain: seq<Action>,
                                                 scope': Scope, chain': seq<Action>)
    requires WellFormed(c) && Lossless(c, chain + chain')
    requires CollisionFree(c, Hashed(c, scope, chain) + Hashed(c, scope', chain'))
    requires Digest(c, scope, chain) == Digest(c, scope', chain')
    ensures scope == scope' && chain == chain'
    decreases |chain|
  {
    var p, p' := Preimage(c, scope, chain), Preimage(c, scope', chain');
    assert p == p';
    SeedsBeginWithABrace(c, scope, chain);
    SeedsBeginWithABrace(c, scope', chain');
    if chain != [] {
      var init, init' := chain[..|chain| - 1], chain'[..|chain'| - 1];
      var last, last' := chain[|chain| - 1], chain'[|chain'| - 1];
      SplitsOnce(Digest(c, scope, init), c.actionText(last), Digest(c, scope', init'), c.actionText(last'));
      assert Hashed(c, scope, init) <= Hashed(c, scope, chain);
      assert Hashed(c, scope', init') <= Hashed(c, scope', chain');
      assert chain == init + [last] && chain' == init' + [last'];
      assert Lossless(c, init + init') by {
        assert forall a :: a in init + init' ==> a in chain + chain';
      }
      DigestDeterminesChain(c, scope, init, scope', init');
      assert last in chain + chain' && last' in chain + chain';
    }
  }

  /** Keys as texts are as good as (scope, chain) pairs, for recorded results and for live-only markers
      alike, and a marker is never taken for a result. */
  lemma KeyTextsAreFaithful(c: Codec, k: Key, k': Key)
    requires WellFormed(c) && Lossless(c, k.chain + k'.chain)
    requires CollisionFree(c, Hashed(c, k.scope, k.chain) + Hashed(c, k'.scope, k'.chain))
    ensures EntryText(c, k) == EntryText(c, k') <==> k == k'
    ensures BlockedText(c, k) == BlockedText(c, k') <==> k == k'
    ensures EntryText(c, k) != BlockedText(c, k')
  {
    var e, e' := EntryText(c, k), EntryText(c, k');
    assert |e| == |e'| == 4 + DIGEST_LENGTH;
    if e == e' {
      assert e[4..] == Digest(c, k.scope, k.chain) && e'[4..] == Digest(c, k'.scope, k'.chain);
      DigestDeterminesChain(c, k.scope, k.chain, k'.scope, k'.chain);
    }
    if BlockedText(c, k) == BlockedText(c, k') {
      assert BlockedText(c, k)[..|e|] == e && BlockedText(c, k')[..|e|] == e';
    }
  }
}
