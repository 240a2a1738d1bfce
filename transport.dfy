/**
 * The request helpers: the bounded retry around `fetch`, and the repeated
 * URL-decoding of a stream token. The network and `decodeURIComponent` are
 * parameters: `attempt(i)` is the outcome of the i-th call to `fetch`
 * (None when it threw), and `decode` stands for `decodeURIComponent`.
 */
module Transport {
  import opened Wrappers
  import opened Text

  /** The first outcome among the first `n` attempts that did not throw,
      or nothing when all of them threw. */
  function FirstAnswer<T>(attempt: nat -> Option<T>, n: int): Option<T>
    decreases n
  {
    if n <= 0 then None
    else
      var earlier := FirstAnswer(attempt, n - 1);
      if earlier.Some? then earlier else attempt(n - 1)
  }

  /** The first answer is nothing exactly when every attempt failed, and
      otherwise it is the outcome of an attempt preceded only by failures. */
  lemma {:induction false} FirstAnswerFacts<T>(attempt: nat -> Option<T>, n: int)
    decreases n
    ensures var r := FirstAnswer(attempt, n);
      (r.None? <==> forall i :: 0 <= i < n ==> attempt(i).None?) &&
      (r.Some? ==> exists i :: 0 <= i < n && r == attempt(i) && forall j :: 0 <= j < i ==> attempt(j).None?)
  {
    if n > 0 {
      FirstAnswerFacts(attempt, n - 1);
      if FirstAnswer(attempt, n - 1).None? && attempt(n - 1).Some? {
        assert forall j :: 0 <= j < n - 1 ==> attempt(j).None?;
      }
    }
  }

  /** Once an attempt has answered, later attempts change nothing. */
  lemma {:induction false} FirstAnswerSettled<T>(attempt: nat -> Option<T>, m: int, n: int)
    requires m <= n && FirstAnswer(attempt, m).Some?
    decreases n
    ensures FirstAnswer(attempt, n) == FirstAnswer(attempt, m)
  {
    if n > m {
      FirstAnswerSettled(attempt, m, n - 1);
    }
  }

  /** `fetch_retry(url, options, n)`: call `fetch` up to `n` times and return
      the first outcome that did not throw; after `n` failures return
      undefined. `tries` is the number of calls made. */
  method FetchRetry<T>(attempt: nat -> Option<T>, n: int) returns (r: Option<T>, tries: nat)
    ensures r == FirstAnswer(attempt, n)
    ensures r.None? ==> tries == (if n < 0 then 0 else n)
    ensures r.Some? ==> 1 <= tries <= n && r == attempt(tries - 1)
    ensures r.Some? ==> forall j :: 0 <= j < tries - 1 ==> attempt(j).None?
  {
    var i := 0;
    while i < n
      invariant 0 <= i && (n >= 0 ==> i <= n) && (n < 0 ==> i == 0)
      invariant forall j :: 0 <= j < i ==> attempt(j).None?
      invariant FirstAnswer(attempt, i).None?
    {
      var outcome := attempt(i);
      if outcome.Some? {
        assert FirstAnswer(attempt, i + 1) == outcome;
        FirstAnswerSettled(attempt, i + 1, n);
        return outcome, i + 1;
      }
      i := i + 1;
    }
    return None, i;
  }

  /** What `decodeURIComponent` must satisfy for the decoding loop to stop:
      whenever decoding leaves an escape behind, it has shortened its input.
      The real function meets this: it returns its input unchanged when the
      input holds no escape, and shortens every escape it decodes. */
  ghost predicate DecodeShortens(decode: string -> string) {
    forall t :: HasPercentEscape(decode(t)) ==> |decode(t)| < |t|
  }

  /** The token `normalizeEncoding` settles on: keep decoding while the next
      decoding still shows a percent escape. */
  function Normalized(decode: string -> string, s: string): (r: string)
    requires DecodeShortens(decode)
    decreases |s|
    ensures !HasPercentEscape(decode(r))
    ensures r == s || |r| < |s|
  {
    if HasPercentEscape(decode(s)) then Normalized(decode, decode(s)) else s
  }

  /** The token decoded `k` times in a row. */
  function DecodeN(decode: string -> string, s: string, k: nat): string
    decreases k
  {
    if k == 0 then s else DecodeN(decode, decode(s), k - 1)
  }

  /** How many times the loop decodes before it stops. */
  ghost function Rounds(decode: string -> string, s: string): nat
    requires DecodeShortens(decode)
    decreases |s|
  {
    if HasPercentEscape(decode(s)) then 1 + Rounds(decode, decode(s)) else 0
  }

  /** The normalized token is the input decoded `k` times, where `k` is the
      first count at which one more decoding shows no percent escape: every
      earlier count still showed one, so the loop went on. */
  lemma NormalizedDecodes(decode: string -> string, s: string)
    requires DecodeShortens(decode)
    ensures exists k: nat ::
              Normalized(decode, s) == DecodeN(decode, s, k) &&
              forall j :: 0 <= j < k ==> HasPercentEscape(decode(DecodeN(decode, s, j)))
  {
    DecodedRounds(decode, s);
  }

  /** `NormalizedDecodes` with the count named: the loop decodes exactly
      `Rounds` times. */
  lemma {:induction false} DecodedRounds(decode: string -> string, s: string)
    requires DecodeShortens(decode)
    ensures Normalized(decode, s) == DecodeN(decode, s, Rounds(decode, s))
    ensures forall j :: 0 <= j < Rounds(decode, s) ==> HasPercentEscape(decode(DecodeN(decode, s, j)))
    decreases |s|
  {
    if HasPercentEscape(decode(s)) {
      var t := decode(s);
      DecodedRounds(decode, t);
      forall j | 0 <= j < Rounds(decode, s)
        ensures HasPercentEscape(decode(DecodeN(decode, s, j)))
      {
        if j > 0 {
          assert DecodeN(decode, s, j) == DecodeN(decode, t, j - 1);
        }
      }
    }
  }

  /** `normalizeEncoding`: the while loop over `decodeURIComponent`. */
  method NormalizeEncoding(decode: string -> string, params: string) returns (r: string)
    requires DecodeShortens(decode)
    ensures r == Normalized(decode, params)
  {
    r := params;
    while HasPercentEscape(decode(r))
      invariant Normalized(decode, r) == Normalized(decode, params)
      decreases |r|
    {
      r := decode(r);
    }
  }
}
