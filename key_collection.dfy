/** The first pass of `exportHistoryToCSV` (frontend/src/App.js): every
    `averages` key and every `type_distribution` key of the history, gathered
    into two insertion-ordered `Set`s. A `Set` is modelled as a sequence with
    no repeats, in insertion order. */
module KeyCollection {
  import opened JsValues
  import opened StringOrder

  /** Which of a record's two maps. */
  datatype Group = Averages | TypeDistribution

  function SectionOf(r: Summary, g: Group): Section {
    match g
    case Averages => r.averages
    case TypeDistribution => r.typeDistribution
  }

  /** The keys a record contributes: those of an object, none otherwise
      (`item.averages && typeof item.averages === "object"`). */
  function ObjectKeys(sec: Section): seq<string> {
    match sec
    case Obj(e) => Keys(e)
    case Scalar(_) => []
  }

  /** Every key of group `g`, record after record, repeats included. */
  function AllKeys(h: seq<Summary>, g: Group): seq<string>
    decreases |h|
  {
    if h == [] then [] else AllKeys(h[..|h| - 1], g) + ObjectKeys(SectionOf(h[|h| - 1], g))
  }

  /** `Set.prototype.add`: a new key goes to the end, a known key changes nothing. */
  function AddKey(keys: seq<string>, k: string): seq<string> {
    if k in keys then keys else keys + [k]
  }

  /** The distinct elements of `s` in the order they first occur. */
  function FirstSeen(s: seq<string>): seq<string>
    decreases |s|
  {
    if s == [] then [] else AddKey(FirstSeen(s[..|s| - 1]), s[|s| - 1])
  }

  /** The contents of the `Set` of group `g` after the first pass. */
  function CollectedKeys(h: seq<Summary>, g: Group): seq<string> {
    FirstSeen(AllKeys(h, g))
  }

  /** The position of the first occurrence of `k` in `s`, or `|s|`. */
  function FirstIndex(s: seq<string>, k: string): nat
    decreases |s|
  {
    if s == [] then 0 else if s[0] == k then 0 else 1 + FirstIndex(s[1..], k)
  }

  lemma {:induction false} FirstIndexAppend(s: seq<string>, k: string, x: string)
    ensures x in s ==> FirstIndex(s + [k], x) == FirstIndex(s, x) < |s|
    ensures x !in s && x == k ==> FirstIndex(s + [k], x) == |s|
    decreases |s|
  {
    if s == [] {
    } else {
      assert (s + [k])[1..] == s[1..] + [k];
      FirstIndexAppend(s[1..], k, x);
      assert s == [s[0]] + s[1..];
    }
  }

  lemma {:induction false} FirstSeenAppend(s: seq<string>, k: string)
    ensures FirstSeen(s + [k]) == AddKey(FirstSeen(s), k)
  {
    assert (s + [k])[..|s|] == s;
  }

  /** The collected keys are exactly the keys seen, each once, in the order
      of their first occurrence. */
  lemma {:induction false} FirstSeenSpec(s: seq<string>)
    ensures forall k :: k in FirstSeen(s) <==> k in s
    ensures NoDuplicates(FirstSeen(s))
    ensures forall i, j :: 0 <= i < j < |FirstSeen(s)| ==>
              FirstIndex(s, FirstSeen(s)[i]) < FirstIndex(s, FirstSeen(s)[j]) < |s|
    decreases |s|
  {
    if s != [] {
      var p, k := s[..|s| - 1], s[|s| - 1];
      assert s == p + [k];
      FirstSeenSpec(p);
      var r := FirstSeen(p);
      forall x | x in r ensures FirstIndex(s, x) == FirstIndex(p, x) < |p| {
        FirstIndexAppend(p, k, x);
      }
      FirstIndexAppend(p, k, k);
    }
  }

  /** A key is collected exactly when some record's map of that group is an
      object holding it. */
  lemma {:induction false} AllKeysMembers(h: seq<Summary>, g: Group)
    ensures forall k :: k in AllKeys(h, g) <==>
              exists i :: 0 <= i < |h| && k in ObjectKeys(SectionOf(h[i], g))
    decreases |h|
  {
    if h != [] {
      var p := h[..|h| - 1];
      AllKeysMembers(p, g);
      forall k ensures k in AllKeys(h, g) <==>
                 exists i :: 0 <= i < |h| && k in ObjectKeys(SectionOf(h[i], g))
      {
        if k in AllKeys(h, g) {
          if k in AllKeys(p, g) {
            var i :| 0 <= i < |p| && k in ObjectKeys(SectionOf(p[i], g));
            assert h[i] == p[i];
          } else {
            assert k in ObjectKeys(SectionOf(h[|h| - 1], g));
          }
        } else {
          forall i | 0 <= i < |h| ensures k !in ObjectKeys(SectionOf(h[i], g)) {
            if i < |p| {
              assert h[i] == p[i];
            }
          }
        }
      }
    }
  }

  lemma CollectedKeysSpec(h: seq<Summary>, g: Group)
    ensures forall k :: k in CollectedKeys(h, g) <==>
              exists i :: 0 <= i < |h| && k in ObjectKeys(SectionOf(h[i], g))
    ensures NoDuplicates(CollectedKeys(h, g))
  {
    FirstSeenSpec(AllKeys(h, g));
    AllKeysMembers(h, g);
  }

  /** Adds the keys of one record's section to the set, as
      `Object.keys(item.averages).forEach(k => averagesKeys.add(k))` does. */
  method AddSectionKeys(keys: seq<string>, ghost seen: seq<string>, sec: Section) returns (r: seq<string>)
    requires keys == FirstSeen(seen)
    ensures r == FirstSeen(seen + ObjectKeys(sec))
  {
    r := keys;
    if sec.Obj? {
      var ks := Keys(sec.entries);
      var j := 0;
      assert seen + ks[..0] == seen;
      while j < |ks|
        invariant 0 <= j <= |ks|
        invariant r == FirstSeen(seen + ks[..j])
      {
        assert seen + ks[..j + 1] == (seen + ks[..j]) + [ks[j]];
        FirstSeenAppend(seen + ks[..j], ks[j]);
        r := AddKey(r, ks[j]);
        j := j + 1;
      }
      assert ks[..j] == ks;
    } else {
      assert seen + [] == seen;
    }
  }

  /** The first pass: one walk over the history filling both sets. */
  method CollectKeys(history: seq<Summary>) returns (averagesKeys: seq<string>, typeDistKeys: seq<string>)
    ensures averagesKeys == CollectedKeys(history, Averages)
    ensures typeDistKeys == CollectedKeys(history, TypeDistribution)
  {
    averagesKeys, typeDistKeys := [], [];
    var i := 0;
    while i < |history|
      invariant 0 <= i <= |history|
      invariant averagesKeys == CollectedKeys(history[..i], Averages)
      invariant typeDistKeys == CollectedKeys(history[..i], TypeDistribution)
    {
      var item := history[i];
      assert history[..i + 1][..i] == history[..i];
      averagesKeys := AddSectionKeys(averagesKeys, AllKeys(history[..i], Averages), item.averages);
      typeDistKeys := AddSectionKeys(typeDistKeys, AllKeys(history[..i], TypeDistribution), item.typeDistribution);
      i := i + 1;
    }
    assert history[..|history|] == history;
  }
}
