/** The translation history: records of successful translations, newest first,
    never more than ten of them. */
module History {

  /** One successful translation. `id` and `timestamp` come from the clock and
      are parameters of the model. */
  datatype TranslationRecord = TranslationRecord(
    id: int,
    originalText: string,
    translatedText: string,
    sourceLang: string,
    targetLang: string,
    timestamp: string)

  /** The history never holds more than this many records. */
  const Capacity: nat := 10

  function Min(a: int, b: int): int { if a < b then a else b }

  /** The history updater `prev => [record, ...prev.slice(0, 9)]`: the new record
      goes in front and at most nine of the older ones, in their old order, stay
      behind it. */
  function Prepend(record: TranslationRecord, prev: seq<TranslationRecord>): (h: seq<TranslationRecord>)
    ensures |h| == Min(|prev| + 1, Capacity)
    ensures h[0] == record
    ensures forall i :: 1 <= i < |h| ==> h[i] == prev[i - 1]
  {
    [record] + prev[..Min(|prev|, Capacity - 1)]
  }

  /** The history after the records `recs` were added one after the other,
      `recs[0]` first, starting from `h`. */
  function PrependAll(h: seq<TranslationRecord>, recs: seq<TranslationRecord>): seq<TranslationRecord>
    decreases |recs|
  {
    if recs == [] then h else Prepend(recs[|recs| - 1], PrependAll(h, recs[..|recs| - 1]))
  }

  /** After any sequence of successful translations the history holds the most
      recent ones, newest first, followed by what is left of the history before
      them, and there are never more than ten records. */
  lemma {:induction false} PrependAllNewestFirst(h: seq<TranslationRecord>, recs: seq<TranslationRecord>)
    requires |h| <= Capacity
    ensures |PrependAll(h, recs)| == Min(|recs| + |h|, Capacity)
    ensures forall i :: 0 <= i < |PrependAll(h, recs)| ==>
      PrependAll(h, recs)[i] == if i < |recs| then recs[|recs| - 1 - i] else h[i - |recs|]
  {
    if recs != [] {
      var n := |recs| - 1;
      PrependAllNewestFirst(h, recs[..n]);
      var prev := PrependAll(h, recs[..n]);
      var now := PrependAll(h, recs);
      assert now == Prepend(recs[n], prev);
      forall i | 1 <= i < |now|
        ensures now[i] == if i < |recs| then recs[|recs| - 1 - i] else h[i - |recs|]
      {
        assert now[i] == prev[i - 1];
        if i < |recs| {
          assert recs[..n][n - 1 - (i - 1)] == recs[|recs| - 1 - i];
        }
      }
    }
  }

  /** Starting from an empty history, after N successful translations the
      history holds exactly the min(N, 10) most recent ones, newest first. */
  lemma KeepsTenMostRecent(recs: seq<TranslationRecord>)
    ensures |PrependAll([], recs)| == Min(|recs|, Capacity)
    ensures forall i :: 0 <= i < |PrependAll([], recs)| ==> PrependAll([], recs)[i] == recs[|recs| - 1 - i]
  {
    PrependAllNewestFirst([], recs);
  }
}
