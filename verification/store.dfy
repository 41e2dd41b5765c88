/**
  The `daily_problems` and `weekly_themes` collections. A collection is its documents in
  natural (insertion) order; problem documents are keyed by their `id`, which the database
  keeps unique. Only the writes the core performs are modelled: ordered `insert_many`,
  `insert`, `save` (replace by key) and `delete`.
*/
module Store {
  import opened Wrappers
  import opened Text
  import opened Records

  /** The keys present in a sequence of problems. */
  function Keys<TC>(docs: seq<DailyProblem<TC>>): set<string>
  {
    set i | 0 <= i < |docs| :: docs[i].id
  }

  predicate UniqueIds<TC>(docs: seq<DailyProblem<TC>>)
  {
    forall i, j :: 0 <= i < j < |docs| ==> docs[i].id != docs[j].id
  }

  /** `DailyProblem.get(key)`: the document with that key, if any. */
  function Find<TC>(docs: seq<DailyProblem<TC>>, key: string): (r: Option<DailyProblem<TC>>)
    ensures r.Some? <==> key in Keys(docs)
    ensures r.Some? ==> r.value in docs && r.value.id == key
  {
    if |docs| == 0 then None
    else if docs[0].id == key then Some(docs[0])
    else
      assert Keys(docs) == {docs[0].id} + Keys(docs[1..]) by {
        assert forall i :: 1 <= i < |docs| ==> docs[i] == docs[1..][i - 1];
      }
      Find(docs[1..], key)
  }

  /** With unique keys, the document found under a key is the one at its position. */
  lemma FindUnique<TC>(docs: seq<DailyProblem<TC>>, i: nat)
    requires UniqueIds(docs) && i < |docs|
    ensures Find(docs, docs[i].id) == Some(docs[i])
  {
    if i > 0 && docs[0].id != docs[i].id {
      FindUnique(docs[1..], i - 1);
    }
  }

  /** `DailyProblem.find(DailyProblem.id >= lo, DailyProblem.id <= hi)`: the documents whose
      key lies in the inclusive string range, in natural order. */
  function FindRange<TC>(docs: seq<DailyProblem<TC>>, lo: string, hi: string): (r: seq<DailyProblem<TC>>)
    ensures forall i :: 0 <= i < |r| ==> r[i] in docs && LexLe(lo, r[i].id) && LexLe(r[i].id, hi)
    ensures forall i :: 0 <= i < |docs| && LexLe(lo, docs[i].id) && LexLe(docs[i].id, hi) ==> docs[i] in r
    ensures UniqueIds(docs) ==> UniqueIds(r)
  {
    if |docs| == 0 then []
    else
      var rest := FindRange(docs[1..], lo, hi);
      assert forall i :: 1 <= i < |docs| ==> docs[i] == docs[1..][i - 1];
      if LexLe(lo, docs[0].id) && LexLe(docs[0].id, hi) then
        assert UniqueIds(docs) ==> UniqueIds([docs[0]] + rest) by {
          if UniqueIds(docs) {
            FirstKeyNotInRest(docs, rest);
          }
        }
        [docs[0]] + rest
      else rest
  }

  /** Under unique keys, the first document's key is not carried by any document taken from
      the rest, and putting it in front of them keeps keys unique. */
  lemma FirstKeyNotInRest<TC>(docs: seq<DailyProblem<TC>>, rest: seq<DailyProblem<TC>>)
    requires UniqueIds(docs) && |docs| > 0 && UniqueIds(rest)
    requires forall i :: 0 <= i < |rest| ==> rest[i] in docs[1..]
    ensures UniqueIds([docs[0]] + rest)
  {
    var s := [docs[0]] + rest;
    forall i, j | 0 <= i < j < |s|
      ensures s[i].id != s[j].id
    {
      if i == 0 {
        assert s[j] == rest[j - 1];
        var k :| 0 <= k < |docs[1..]| && docs[1..][k] == rest[j - 1];
        assert docs[k + 1] == rest[j - 1];
      } else {
        assert s[i] == rest[i - 1] && s[j] == rest[j - 1];
      }
    }
  }

  /** Looking a key of the range up among the range's documents finds what looking it up in
      the whole collection finds. */
  lemma FindInRange<TC>(docs: seq<DailyProblem<TC>>, lo: string, hi: string, key: string)
    requires UniqueIds(docs) && LexLe(lo, key) && LexLe(key, hi)
    ensures Find(FindRange(docs, lo, hi), key) == Find(docs, key)
  {
    var r := FindRange(docs, lo, hi);
    if key in Keys(docs) {
      var i :| 0 <= i < |docs| && docs[i].id == key;
      assert docs[i] in r;
      var j :| 0 <= j < |r| && r[j] == docs[i];
      assert key in Keys(r);
      var x := Find(r, key).value;
      var a :| 0 <= a < |docs| && docs[a] == x;
      FindUnique(docs, i);
      assert a == i;
    } else {
      assert key !in Keys(r);
    }
  }

  /** How many documents an ordered `insert_many(ps)` writes before the first duplicate key. */
  function InsertedPrefix<TC>(docs: seq<DailyProblem<TC>>, ps: seq<DailyProblem<TC>>): (k: nat)
    ensures k <= |ps|
    decreases |ps|
  {
    if |ps| == 0 then 0
    else if ps[0].id in Keys(docs) then 0
    else 1 + InsertedPrefix(docs + [ps[0]], ps[1..])
  }

  /** The write stops exactly at the first document whose key is already present, counting
      the documents of the batch written before it. */
  lemma {:induction false} InsertedPrefixStops<TC>(docs: seq<DailyProblem<TC>>, ps: seq<DailyProblem<TC>>)
    ensures var k := InsertedPrefix(docs, ps);
      && (k < |ps| ==> ps[k].id in Keys(docs + ps[..k]))
      && (forall i :: 0 <= i < k ==> ps[i].id !in Keys(docs + ps[..i]))
    decreases |ps|
  {
    if |ps| > 0 {
      if ps[0].id in Keys(docs) {
        assert docs + ps[..0] == docs;
      } else {
        InsertedPrefixStops(docs + [ps[0]], ps[1..]);
        assert forall i :: 1 <= i <= |ps| ==> docs + ps[..i] == docs + [ps[0]] + ps[1..][..i - 1];
        assert docs + ps[..0] == docs;
      }
    }
  }

  /** One document of the batch: a taken key stops the write, a fresh one is written and the
      rest of the batch follows it. */
  lemma InsertedPrefixStep<TC>(docs: seq<DailyProblem<TC>>, ps: seq<DailyProblem<TC>>, i: nat)
    requires i < |ps|
    ensures ps[i].id in Keys(docs) ==> InsertedPrefix(docs, ps[i..]) == 0
    ensures ps[i].id !in Keys(docs) ==> InsertedPrefix(docs, ps[i..]) == 1 + InsertedPrefix(docs + [ps[i]], ps[i + 1..])
  {
    assert ps[i..][0] == ps[i] && ps[i..][1..] == ps[i + 1..];
  }

  /** Writing the document at position `i` of the batch, whose key is fresh. */
  lemma WriteOne<TC>(docs: seq<DailyProblem<TC>>, ps: seq<DailyProblem<TC>>, i: nat)
    requires UniqueIds(docs) && i < |ps| && ps[i].id !in Keys(docs)
    ensures UniqueIds(docs + [ps[i]])
    ensures InsertedPrefix(docs, ps[i..]) == 1 + InsertedPrefix(docs + [ps[i]], ps[i + 1..])
    ensures ps[..i + 1] == ps[..i] + [ps[i]]
  {
    InsertedPrefixStep(docs, ps, i);
    UniqueAppend(docs, ps[i]);
  }

  lemma KeysAppend<TC>(docs: seq<DailyProblem<TC>>, p: DailyProblem<TC>)
    ensures Keys(docs + [p]) == Keys(docs) + {p.id}
  {
    var s := docs + [p];
    assert forall i :: 0 <= i < |docs| ==> s[i] == docs[i];
    assert s[|docs|] == p;
  }

  /** Appending a document with a fresh key keeps keys unique. */
  lemma UniqueAppend<TC>(docs: seq<DailyProblem<TC>>, p: DailyProblem<TC>)
    requires UniqueIds(docs) && p.id !in Keys(docs)
    ensures UniqueIds(docs + [p])
  {
    var s := docs + [p];
    forall i, j | 0 <= i < j < |s|
      ensures s[i].id != s[j].id
    {
      if j == |docs| {
        assert s[i] == docs[i];
      } else {
        assert s[i] == docs[i] && s[j] == docs[j];
      }
    }
  }

  /** A batch whose keys are pairwise distinct and all absent is written in full. */
  lemma {:induction false} InsertedPrefixAll<TC>(docs: seq<DailyProblem<TC>>, ps: seq<DailyProblem<TC>>)
    requires UniqueIds(ps)
    requires forall i :: 0 <= i < |ps| ==> ps[i].id !in Keys(docs)
    ensures InsertedPrefix(docs, ps) == |ps|
    decreases |ps|
  {
    if |ps| > 0 {
      KeysAppend(docs, ps[0]);
      forall i | 0 <= i < |ps[1..]|
        ensures ps[1..][i].id !in Keys(docs + [ps[0]])
      {
        assert ps[1..][i] == ps[i + 1];
      }
      assert UniqueIds(ps[1..]) by {
        forall i, j | 0 <= i < j < |ps[1..]|
          ensures ps[1..][i].id != ps[1..][j].id
        {
          assert ps[1..][i] == ps[i + 1] && ps[1..][j] == ps[j + 1];
        }
      }
      InsertedPrefixAll(docs + [ps[0]], ps[1..]);
    }
  }

  /** `docs` with the document under `key` removed. */
  function Without<TC>(docs: seq<DailyProblem<TC>>, key: string): (r: seq<DailyProblem<TC>>)
    ensures Keys(r) == Keys(docs) - {key}
    ensures forall i :: 0 <= i < |r| ==> r[i] in docs && r[i].id != key
    ensures forall i :: 0 <= i < |docs| && docs[i].id != key ==> docs[i] in r
  {
    if |docs| == 0 then []
    else
      assert Keys(docs) == {docs[0].id} + Keys(docs[1..]) by {
        assert forall i :: 1 <= i < |docs| ==> docs[i] == docs[1..][i - 1];
      }
      var rest := Without(docs[1..], key);
      if docs[0].id == key then rest
      else
        KeysPrepend(docs[0], rest);
        [docs[0]] + rest
  }

  /** Removing a document keeps keys unique. */
  lemma {:induction false} UniqueWithout<TC>(docs: seq<DailyProblem<TC>>, key: string)
    requires UniqueIds(docs)
    ensures UniqueIds(Without(docs, key))
  {
    if |docs| > 0 {
      var tail := docs[1..];
      assert UniqueIds(tail) by {
        forall i, j | 0 <= i < j < |tail|
          ensures tail[i].id != tail[j].id
        {
          assert tail[i] == docs[i + 1] && tail[j] == docs[j + 1];
        }
      }
      UniqueWithout(tail, key);
      var rest := Without(tail, key);
      if docs[0].id != key {
        assert docs[0].id !in Keys(tail) by {
          forall i | 0 <= i < |tail|
            ensures tail[i].id != docs[0].id
          {
            assert tail[i] == docs[i + 1];
          }
        }
        UniquePrepend(docs[0], rest);
      }
    }
  }

  lemma UniquePrepend<TC>(p: DailyProblem<TC>, docs: seq<DailyProblem<TC>>)
    requires UniqueIds(docs) && p.id !in Keys(docs)
    ensures UniqueIds([p] + docs)
  {
    var s := [p] + docs;
    forall i, j | 0 <= i < j < |s|
      ensures s[i].id != s[j].id
    {
      assert s[j] == docs[j - 1];
      if i > 0 {
        assert s[i] == docs[i - 1];
      }
    }
  }

  /** `docs` with the document under `p.id` replaced by `p`, in place. */
  function Replace<TC>(docs: seq<DailyProblem<TC>>, p: DailyProblem<TC>): (r: seq<DailyProblem<TC>>)
    ensures |r| == |docs|
    ensures forall i :: 0 <= i < |docs| ==> r[i] == (if docs[i].id == p.id then p else docs[i])
  {
    seq(|docs|, i requires 0 <= i < |docs| => if docs[i].id == p.id then p else docs[i])
  }

  lemma ReplaceKeys<TC>(docs: seq<DailyProblem<TC>>, p: DailyProblem<TC>)
    ensures Keys(Replace(docs, p)) == Keys(docs)
    ensures UniqueIds(docs) ==> UniqueIds(Replace(docs, p))
  {
    var r := Replace(docs, p);
    assert forall i :: 0 <= i < |docs| ==> r[i].id == docs[i].id;
    assert forall k :: k in Keys(docs) ==> k in Keys(r) by {
      forall k | k in Keys(docs)
        ensures k in Keys(r)
      {
        var i :| 0 <= i < |docs| && docs[i].id == k;
        assert r[i].id == k;
      }
    }
  }

  lemma KeysPrepend<TC>(p: DailyProblem<TC>, docs: seq<DailyProblem<TC>>)
    ensures Keys([p] + docs) == {p.id} + Keys(docs)
  {
    var s := [p] + docs;
    assert s[0] == p;
    forall k | k in Keys(s)
      ensures k in {p.id} + Keys(docs)
    {
      var i :| 0 <= i < |s| && s[i].id == k;
      if i > 0 {
        assert s[i] == docs[i - 1];
      }
    }
    forall k | k in Keys(docs)
      ensures k in Keys(s)
    {
      var i :| 0 <= i < |docs| && docs[i].id == k;
      assert s[i + 1] == docs[i];
    }
  }

  /** Why the database refused a write. */
  datatype WriteError = EmptyInsert | DuplicateKey(key: string)

  /** The `daily_problems` collection. */
  class ProblemCollection<TC> {
    var docs: seq<DailyProblem<TC>>

    ghost predicate Valid()
      reads this
    {
      UniqueIds(docs)
    }

    constructor ()
      ensures Valid() && docs == []
    {
      docs := [];
    }

    /** `DailyProblem.insert_many(ps)`, ordered: documents are written one by one until the
        first duplicate key, which aborts the rest; an empty list is refused outright. */
    method InsertMany(ps: seq<DailyProblem<TC>>) returns (r: Result<nat, WriteError>)
      requires Valid()
      modifies this
      ensures Valid()
      ensures docs == old(docs) + ps[..InsertedPrefix(old(docs), ps)]
      ensures |ps| == 0 ==> r == Err(EmptyInsert)
      ensures |ps| > 0 ==>
        var k := InsertedPrefix(old(docs), ps);
        if k == |ps| then r == Ok(k) else r == Err(DuplicateKey(ps[k].id))
    {
      if |ps| == 0 {
        return Err(EmptyInsert);
      }
      ghost var k := InsertedPrefix(docs, ps);
      var i := 0;
      while i < |ps|
        invariant 0 <= i <= k
        invariant docs == old(docs) + ps[..i]
        invariant i + InsertedPrefix(docs, ps[i..]) == k
        invariant Valid()
      {
        if ps[i].id in Keys(docs) {
          InsertedPrefixStep(docs, ps, i);
          return Err(DuplicateKey(ps[i].id));
        }
        WriteOne(docs, ps, i);
        docs := docs + [ps[i]];
        i := i + 1;
      }
      return Ok(i);
    }

    /** `doc.insert()`: refused when the key is taken. */
    method Insert(p: DailyProblem<TC>) returns (r: Result<(), WriteError>)
      requires Valid()
      modifies this
      ensures Valid()
      ensures p.id in Keys(old(docs)) ==> r == Err(DuplicateKey(p.id)) && docs == old(docs)
      ensures p.id !in Keys(old(docs)) ==> r == Ok(()) && docs == old(docs) + [p]
    {
      if p.id in Keys(docs) {
        return Err(DuplicateKey(p.id));
      }
      UniqueAppend(docs, p);
      docs := docs + [p];
      return Ok(());
    }

    /** `doc.save()` of a document already stored: replaced in place under its key. */
    method Save(p: DailyProblem<TC>)
      requires Valid()
      modifies this
      ensures Valid()
      ensures docs == Replace(old(docs), p)
    {
      ReplaceKeys(docs, p);
      docs := Replace(docs, p);
    }

    /** `doc.delete()`. */
    method Delete(key: string)
      requires Valid()
      modifies this
      ensures Valid()
      ensures docs == Without(old(docs), key)
    {
      UniqueWithout(docs, key);
      docs := Without(docs, key);
    }
  }

  /** The `weekly_themes` collection: records are only ever appended by the core. */
  class ThemeCollection<Th> {
    var docs: seq<Th>

    constructor ()
      ensures docs == []
    {
      docs := [];
    }

    /** `theme.insert()`. */
    method Insert(t: Th)
      modifies this
      ensures docs == old(docs) + [t]
    {
      docs := docs + [t];
    }
  }
}
