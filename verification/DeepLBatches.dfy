/** The batching of app/translation/translator.py: texts are packed greedily, in order, into requests
    of bounded size, and the translations are put back at the places the texts came from. */
module DeepLBatches {
  import opened Common

  const MAX_TEXTS: nat := 50
  const MAX_REQUEST_BYTES: nat := 128 * 1024

  datatype Item = Item(index: nat, text: string)

  datatype TranslateError = InputTooLarge | ServiceFailed | WrongCount

  /** How a text is written in the JSON body: `base` bytes for the rest of the body, `encoded` for each text. */
  datatype Encoding = Encoding(base: nat, encoded: string -> nat)

  /** Bytes of the JSON array's contents: the encoded texts with a comma between them. */
  function ArrayBytes(e: Encoding, batch: seq<Item>): nat {
    if |batch| == 0 then 0
    else
      var n := |batch| - 1;
      ArrayBytes(e, batch[..n]) + e.encoded(batch[n].text) + if n > 0 then 1 else 0
  }

  function PayloadSize(e: Encoding, batch: seq<Item>): nat {
    e.base + ArrayBytes(e, batch)
  }

  predicate Fits(e: Encoding, batch: seq<Item>) {
    |batch| <= MAX_TEXTS && PayloadSize(e, batch) < MAX_REQUEST_BYTES
  }

  /** The bytes of the encoded texts on their own. */
  ghost function TextBytes(e: Encoding, batch: seq<Item>): nat {
    if batch == [] then 0 else e.encoded(batch[0].text) + TextBytes(e, batch[1..])
  }

  lemma {:induction false} TextBytesAppend(e: Encoding, batch: seq<Item>, item: Item)
    ensures TextBytes(e, batch + [item]) == TextBytes(e, batch) + e.encoded(item.text)
  {
    if batch != [] {
      assert (batch + [item])[1..] == batch[1..] + [item];
      TextBytesAppend(e, batch[1..], item);
    }
  }

  lemma {:induction false} ArrayBytesIs(e: Encoding, batch: seq<Item>)
    ensures ArrayBytes(e, batch) == TextBytes(e, batch) + if |batch| > 1 then |batch| - 1 else 0
  {
    if batch != [] {
      var n := |batch| - 1;
      ArrayBytesIs(e, batch[..n]);
      TextBytesAppend(e, batch[..n], batch[n]);
      assert batch == batch[..n] + [batch[n]];
    }
  }

  /** A request fits if it has at most 50 texts, and the texts, a comma between any two and the rest of the body are
      fewer than 131072 bytes. */
  lemma FitsIff(e: Encoding, batch: seq<Item>)
    ensures Fits(e, batch) <==>
              |batch| <= 50 && e.base + TextBytes(e, batch) + (if |batch| > 1 then |batch| - 1 else 0) < 131072
  {
    ArrayBytesIs(e, batch);
  }

  ghost function Flatten<T>(batches: seq<seq<T>>): seq<T> {
    if |batches| == 0 then [] else Flatten(batches[..|batches| - 1]) + batches[|batches| - 1]
  }

  /** Every request is non-empty and within the limits, they carry the items in order, and no request
      could have taken the first item of the next. */
  ghost predicate IsGreedySplit(e: Encoding, items: seq<Item>, batches: seq<seq<Item>>) {
    && Flatten(batches) == items
    && (forall k :: 0 <= k < |batches| ==> |batches[k]| > 0 && Fits(e, batches[k]))
    && (forall j, k :: 0 <= j < |batches| && 0 <= k < |batches| && k == j + 1 ==>
        !Fits(e, batches[j] + [batches[k][0]]))
  }

  // ---------------------------------------------------------------- size is monotone

  lemma {:induction false} PrefixIsSmaller(e: Encoding, batch: seq<Item>, n: nat)
    requires n <= |batch|
    ensures ArrayBytes(e, batch[..n]) <= ArrayBytes(e, batch)
  {
    if n < |batch| {
      PrefixIsSmaller(e, batch[..|batch| - 1], n);
      assert batch[..|batch| - 1][..n] == batch[..n];
    } else {
      assert batch[..n] == batch;
    }
  }

  lemma {:induction false} SuffixIsSmaller(e: Encoding, batch: seq<Item>, n: nat)
    requires n <= |batch|
    ensures ArrayBytes(e, batch[n..]) <= ArrayBytes(e, batch)
  {
    var last := |batch| - 1;
    if n < |batch| {
      SuffixIsSmaller(e, batch[..last], n);
      assert batch[n..][..last - n] == batch[..last][n..];
    }
  }

  /** A contiguous part of a request that fits also fits. */
  lemma {:induction false} PartFits(e: Encoding, batch: seq<Item>, from: nat, to: nat)
    requires from <= to <= |batch| && Fits(e, batch)
    ensures Fits(e, batch[from..to])
  {
    PrefixIsSmaller(e, batch, to);
    SuffixIsSmaller(e, batch[..to], from);
    assert batch[..to][from..] == batch[from..to];
  }

  // ---------------------------------------------------------------- the greedy loop

  method BuildBatches(e: Encoding, items: seq<Item>) returns (r: Result<seq<seq<Item>>, TranslateError>)
    ensures r.Err? ==> r == Err(InputTooLarge) && exists i :: 0 <= i < |items| && !Fits(e, [items[i]])
    ensures r.Ok? ==> IsGreedySplit(e, items, r.value) && forall i :: 0 <= i < |items| ==> Fits(e, [items[i]])
  {
    hide Fits, IsGreedySplit, Flatten;
    var batches: seq<seq<Item>> := [];
    var current: seq<Item> := [];
    NoBatches(e);
    for n := 0 to |items|
      invariant n > 0 ==> |current| > 0
      invariant Flatten(batches) + current == items[..n]
      invariant Fits(e, current) || n == 0
      invariant n == 0 ==> current == [] && batches == []
      invariant IsGreedySplit(e, Flatten(batches), batches)
      invariant |batches| > 0 ==> !Fits(e, batches[|batches| - 1] + [current[0]])
      invariant forall i :: 0 <= i < n ==> Fits(e, [items[i]])
    {
      var item := items[n];
      var candidate := current + [item];
      assert items[..n + 1] == items[..n] + [item];
      if Fits(e, candidate) {
        PartFits(e, candidate, |current|, |candidate|);
        assert candidate[|current|..|candidate|] == [item];
        current := candidate;
        continue;
      }
      if |current| == 0 {
        assert candidate == [item];
        return Err(InputTooLarge);
      }
      Extend(e, batches, current);
      batches := batches + [current];
      current := [item];
      if !Fits(e, [item]) {
        return Err(InputTooLarge);
      }
    }
    assert items[..|items|] == items;
    if |current| > 0 {
      Extend(e, batches, current);
      batches := batches + [current];
    }
    return Ok(batches);
  }

  lemma NoBatches(e: Encoding)
    ensures Flatten<Item>([]) == [] && IsGreedySplit(e, [], [])
  {
  }

  lemma {:induction false} Extend(e: Encoding, batches: seq<seq<Item>>, current: seq<Item>)
    requires IsGreedySplit(e, Flatten(batches), batches)
    requires |current| > 0 && Fits(e, current)
    requires |batches| > 0 ==> !Fits(e, batches[|batches| - 1] + [current[0]])
    ensures Flatten(batches + [current]) == Flatten(batches) + current
    ensures IsGreedySplit(e, Flatten(batches) + current, batches + [current])
  {
    assert (batches + [current])[..|batches|] == batches;
  }

  // ---------------------------------------------------------------- fewest requests

  /** Batch k is the slice of the items between the ends of the first k and k + 1 batches. */
  lemma {:induction false} BatchIsSlice<T>(batches: seq<seq<T>>, k: nat)
    requires k < |batches|
    ensures |Flatten(batches[..k])| + |batches[k]| == |Flatten(batches[..k + 1])| <= |Flatten(batches)|
    ensures Flatten(batches)[|Flatten(batches[..k])|..|Flatten(batches[..k + 1])|] == batches[k]
    decreases |batches|
  {
    assert batches[..k + 1][..k] == batches[..k];
    var n := |batches| - 1;
    if k < n {
      BatchIsSlice(batches[..n], k);
      assert batches[..n][..k] == batches[..k] && batches[..n][..k + 1] == batches[..k + 1];
    } else {
      assert batches[..n + 1] == batches;
    }
  }

  lemma {:induction false} SliceFits(e: Encoding, items: seq<Item>, from: nat, start: nat, end: nat, to: nat)
    requires from <= start <= end <= to <= |items| && Fits(e, items[from..to])
    ensures Fits(e, items[start..end])
  {
    hide Fits;
    PartFits(e, items[from..to], start - from, end - from);
    SliceOfSlice(items, from, start, end, to);
  }

  lemma SliceOfSlice<T>(s: seq<T>, from: nat, start: nat, end: nat, to: nat)
    requires from <= start <= end <= to <= |s|
    ensures s[from..to][start - from..end - from] == s[start..end]
  {
    assert |s[from..to]| == to - from;
    assert forall k :: 0 <= k < to - from ==> s[from..to][k] == s[from + k];
  }

  /** A greedy batch together with the item after it is too large. */
  lemma {:induction false} GreedyIsMaximal(e: Encoding, items: seq<Item>, greedy: seq<seq<Item>>, k: nat)
    requires IsGreedySplit(e, items, greedy) && k + 1 < |greedy|
    ensures var start, end := |Flatten(greedy[..k])|, |Flatten(greedy[..k + 1])|;
            start <= end < |items| && !Fits(e, items[start..end + 1])
  {
    hide Flatten, Fits;
    BatchIsSlice(greedy, k);
    BatchIsSlice(greedy, k + 1);
    var start, end := |Flatten(greedy[..k])|, |Flatten(greedy[..k + 1])|;
    assert greedy[k + 1][0] == items[end];
    assert items[start..end + 1] == greedy[k] + [greedy[k + 1][0]];
  }

  /** The greedy split is never behind any other split. */
  lemma {:induction false} GreedyStaysAhead(e: Encoding, items: seq<Item>, greedy: seq<seq<Item>>,
                                            other: seq<seq<Item>>, k: nat)
    requires IsGreedySplit(e, items, greedy)
    requires Flatten(other) == items && forall j :: 0 <= j < |other| ==> Fits(e, other[j])
    requires k <= |greedy| && k <= |other|
    ensures |Flatten(other[..k])| <= |Flatten(greedy[..k])|
  {
    hide Fits;
    if k == |greedy| {
      assert greedy[..k] == greedy;
      if k > 0 {
        BatchIsSlice(other, k - 1);
      }
    } else if k > 0 {
      GreedyStaysAhead(e, items, greedy, other, k - 1);
      BatchIsSlice(other, k - 1);
      GreedyIsMaximal(e, items, greedy, k - 1);
      if |Flatten(greedy[..k])| < |Flatten(other[..k])| {
        SliceFits(e, items, |Flatten(other[..k - 1])|, |Flatten(greedy[..k - 1])|, |Flatten(greedy[..k])| + 1,
                  |Flatten(other[..k])|);
      }
    }
  }

  /** No way to split the texts, in order, into requests within the limits needs fewer requests. */
  lemma {:induction false} GreedyIsOptimal(e: Encoding, items: seq<Item>, greedy: seq<seq<Item>>, other: seq<seq<Item>>)
    requires IsGreedySplit(e, items, greedy)
    requires Flatten(other) == items && forall j :: 0 <= j < |other| ==> Fits(e, other[j])
    ensures |greedy| <= |other|
  {
    if |other| < |greedy| {
      GreedyStaysAhead(e, items, greedy, other, |other|);
      assert other[..|other|] == other;
      BatchIsSlice(greedy, |other|);
    }
  }

  // ---------------------------------------------------------------- putting results back

  /** The non-empty texts among the first n, with their places. */
  ghost function Indexed(texts: seq<string>, n: nat): seq<Item>
    requires n <= |texts|
  {
    if n == 0 then [] else Indexed(texts, n - 1) + if texts[n - 1] != "" then [Item(n - 1, texts[n - 1])] else []
  }

  lemma {:induction false} IndexedIsExact(texts: seq<string>, n: nat)
    requires n <= |texts|
    ensures forall k :: 0 <= k < |Indexed(texts, n)| ==>
              && Indexed(texts, n)[k].index < n
              && Indexed(texts, n)[k].text == texts[Indexed(texts, n)[k].index] != ""
    ensures forall k, l :: 0 <= k < l < |Indexed(texts, n)| ==> Indexed(texts, n)[k].index < Indexed(texts, n)[l].index
    ensures forall i :: 0 <= i < n && texts[i] != "" ==> Item(i, texts[i]) in Indexed(texts, n)
  {
    if n > 0 {
      IndexedIsExact(texts, n - 1);
    }
  }

  function TextsOf(batch: seq<Item>): (r: seq<string>)
    ensures |r| == |batch|
  {
    seq(|batch|, i requires 0 <= i < |batch| => batch[i].text)
  }

  /** What the service answers to one request: an error, or some list of translations. */
  type Service = seq<string> -> Result<seq<string>, TranslateError>

  /** Asks the service for every request; a list of the wrong length is a protocol error. */
  method TranslateBatches(batches: seq<seq<Item>>, service: Service)
    returns (r: Result<seq<seq<string>>, TranslateError>)
    ensures r.Ok? ==> |r.value| == |batches| && forall k :: 0 <= k < |batches| ==>
                        service(TextsOf(batches[k])) == Ok(r.value[k]) && |r.value[k]| == |batches[k]|
    ensures r.Err? ==> exists k :: 0 <= k < |batches| && Refused(service, batches[k])
  {
    var replies: seq<seq<string>> := [];
    for k := 0 to |batches|
      invariant |replies| == k
      invariant forall j :: 0 <= j < k ==>
                  service(TextsOf(batches[j])) == Ok(replies[j]) && |replies[j]| == |batches[j]|
    {
      var reply := service(TextsOf(batches[k]));
      if reply.Err? {
        assert Refused(service, batches[k]);
        return Err(reply.error);
      }
      if |reply.value| != |batches[k]| {
        assert Refused(service, batches[k]);
        return Err(WrongCount);
      }
      replies := replies + [reply.value];
    }
    return Ok(replies);
  }

  predicate Refused(service: Service, batch: seq<Item>) {
    service(TextsOf(batch)).Err? || |service(TextsOf(batch)).value| != |batch|
  }

  ghost predicate SameShape(batches: seq<seq<Item>>, replies: seq<seq<string>>) {
    |batches| == |replies| && forall k :: 0 <= k < |batches| ==> |batches[k]| == |replies[k]|
  }

  /** The places of items are inside the results and increase. */
  ghost predicate Placeable(all: seq<Item>, size: nat) {
    && (forall p :: 0 <= p < |all| ==> all[p].index < size)
    && (forall p, q :: 0 <= p < q < |all| ==> all[p].index < all[q].index)
  }

  /** The first n translations stand at the places of the first n items; all else is as in `before`. */
  ghost predicate Placed(all: seq<Item>, translations: seq<string>, n: nat, before: seq<Option<string>>,
                         after: seq<Option<string>>)
    requires n <= |all| && n <= |translations| && Placeable(all, |before|)
  {
    && |after| == |before|
    && (forall p :: 0 <= p < n ==> after[all[p].index] == Some(translations[p]))
    && (forall i :: 0 <= i < |after| && (forall p :: 0 <= p < n ==> all[p].index != i) ==> after[i] == before[i])
  }

  method Scatter(results: seq<Option<string>>, batches: seq<seq<Item>>, replies: seq<seq<string>>)
    returns (r: seq<Option<string>>)
    requires SameShape(batches, replies) && Placeable(Flatten(batches), |results|)
    ensures |Flatten(replies)| == |Flatten(batches)|
    ensures Placed(Flatten(batches), Flatten(replies), |Flatten(batches)|, results, r)
  {
    r := results;
    ghost var all, translations := Flatten(batches), Flatten(replies);
    ghost var done := 0;
    for k := 0 to |batches|
      invariant done == |Flatten(batches[..k])| == |Flatten(replies[..k])|
      invariant done <= |all| && done <= |translations|
      invariant Placed(all, translations, done, results, r)
    {
      BatchIsSlice(batches, k);
      BatchIsSlice(replies, k);
      r := ScatterOne(r, batches[k], replies[k], all, translations, done, results);
      done := done + |batches[k]|;
    }
    assert batches[..|batches|] == batches && replies[..|replies|] == replies;
  }

  method ScatterOne(results: seq<Option<string>>, batch: seq<Item>, reply: seq<string>,
                    ghost all: seq<Item>, ghost translations: seq<string>, ghost done: nat,
                    ghost before: seq<Option<string>>)
    returns (r: seq<Option<string>>)
    requires |batch| == |reply| && done + |batch| <= |all| && done + |batch| <= |translations|
    requires all[done..done + |batch|] == batch && translations[done..done + |batch|] == reply
    requires Placeable(all, |before|) && Placed(all, translations, done, before, results)
    ensures Placed(all, translations, done + |batch|, before, r)
  {
    r := results;
    for j := 0 to |batch|
      invariant Placed(all, translations, done + j, before, r)
    {
      assert batch[j] == all[done + j] && reply[j] == translations[done + j];
      r := r[batch[j].index := Some(reply[j])];
    }
  }

  /** The service translates text by text with f. */
  ghost predicate Pointwise(service: Service, f: string -> string) {
    forall ts :: service(ts) == Ok(seq(|ts|, i requires 0 <= i < |ts| => f(ts[i])))
  }

  /** The service lets one of the requests for these texts down. */
  ghost predicate RefusesARequest(e: Encoding, texts: seq<string>, service: Service) {
    exists batches: seq<seq<Item>>, k: nat ::
      IsGreedySplit(e, Indexed(texts, |texts|), batches) && k < |batches| && Refused(service, batches[k])
  }

  /** Translating through batches is translating each text: empty texts stay empty, and it only fails
      when a single text cannot fit or the service lets a request down. */
  method TranslateMany(e: Encoding, texts: seq<string>, service: Service, ghost f: string -> string)
    returns (r: Result<seq<Option<string>>, TranslateError>)
    ensures r.Ok? ==> |r.value| == |texts|
    ensures r.Ok? ==> forall i :: 0 <= i < |texts| && texts[i] == "" ==> r.value[i] == Some("")
    ensures r.Ok? && Pointwise(service, f) ==> forall i :: 0 <= i < |texts| && texts[i] != "" ==>
              r.value[i] == Some(f(texts[i]))
    ensures Pointwise(service, f) && r.Err? ==> exists i :: 0 <= i < |texts| && !Fits(e, [Item(i, texts[i])])
    ensures r.Err? ==>
              || (exists i :: 0 <= i < |texts| && !Fits(e, [Item(i, texts[i])]))
              || RefusesARequest(e, texts, service)
  {
    hide Fits, Flatten, Placed, Placeable;
    if |texts| == 0 {
      return Ok([]);
    }
    var results: seq<Option<string>> := [];
    var indexed: seq<Item> := [];
    for n := 0 to |texts|
      invariant |results| == n && indexed == Indexed(texts, n)
      invariant forall i :: 0 <= i < n ==> results[i] == if texts[i] == "" then Some("") else None
    {
      results := results + [if texts[n] == "" then Some("") else None];
      if texts[n] != "" {
        indexed := indexed + [Item(n, texts[n])];
      }
    }
    IndexedIsExact(texts, |texts|);
    var split := BuildBatches(e, indexed);
    if split.Err? {
      return Err(split.error);
    }
    var replies := TranslateBatches(split.value, service);
    if replies.Err? {
      ghost var k :| 0 <= k < |split.value| && Refused(service, split.value[k]);
      assert RefusesARequest(e, texts, service);
      return Err(replies.error);
    }
    hide Indexed;
    var placed := Scatter(results, split.value, replies.value);
    if Pointwise(service, f) {
      RepliesArePointwise(split.value, replies.value, service, f);
      PlacedIsMap(texts, Flatten(replies.value), results, placed, f);
    }
    EmptyTextsKeep(texts, Flatten(replies.value), results, placed);
    return Ok(placed);
  }

  lemma {:induction false} PlacedIsMap(texts: seq<string>, translations: seq<string>, before: seq<Option<string>>,
                                       after: seq<Option<string>>, f: string -> string)
    requires |before| == |texts|
    requires var all := Indexed(texts, |texts|);
             && |translations| == |all|
             && (forall p :: 0 <= p < |all| ==> translations[p] == f(all[p].text))
             && Placeable(all, |before|) && Placed(all, translations, |all|, before, after)
    ensures forall i :: 0 <= i < |texts| && texts[i] != "" ==> after[i] == Some(f(texts[i]))
  {
    IndexedIsExact(texts, |texts|);
    var all := Indexed(texts, |texts|);
    forall i | 0 <= i < |texts| && texts[i] != ""
      ensures after[i] == Some(f(texts[i]))
    {
      var p :| 0 <= p < |all| && all[p] == Item(i, texts[i]);
    }
  }

  /** Empty texts have no item, so their results stay as they were. */
  lemma {:induction false} EmptyTextsKeep(texts: seq<string>, translations: seq<string>, before: seq<Option<string>>,
                                          after: seq<Option<string>>)
    requires |before| == |texts|
    requires var all := Indexed(texts, |texts|);
             && |translations| == |all| && Placeable(all, |before|) && Placed(all, translations, |all|, before, after)
    ensures forall i :: 0 <= i < |texts| && texts[i] == "" ==> after[i] == before[i]
  {
    IndexedIsExact(texts, |texts|);
  }

  lemma {:induction false} RepliesArePointwise(batches: seq<seq<Item>>, replies: seq<seq<string>>, service: Service,
                                               f: string -> string)
    requires Pointwise(service, f) && SameShape(batches, replies)
    requires forall k :: 0 <= k < |batches| ==> service(TextsOf(batches[k])) == Ok(replies[k])
    ensures |Flatten(replies)| == |Flatten(batches)|
    ensures forall p :: 0 <= p < |Flatten(batches)| ==> Flatten(replies)[p] == f(Flatten(batches)[p].text)
  {
    if |batches| > 0 {
      var n := |batches| - 1;
      RepliesArePointwise(batches[..n], replies[..n], service, f);
      assert service(TextsOf(batches[n])) == Ok(replies[n]);
    }
  }
}
