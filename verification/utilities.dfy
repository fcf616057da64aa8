/**
  * The high score list: a dict from score to player name (HighscoreDict)
  * and its printout, which lists the ten highest scores in descending
  * order under a centred title. The selection of the ten highest entries is
  * shared with the high score setter of the engine.
  */
module Utilities {
  import opened Strings

  /** One key-value pair of the dict. */
  datatype Entry = Entry(score: int, player: string)

  /** A Python dict keeps its pairs in insertion order; a key appears once. */
  type HighscoreDict = seq<Entry>

  function Keys(d: HighscoreDict): (r: seq<int>)
    ensures |r| == |d| && forall i :: 0 <= i < |d| ==> r[i] == d[i].score
  {
    seq(|d|, i requires 0 <= i < |d| => d[i].score)
  }

  predicate DistinctKeys(d: HighscoreDict) {
    forall i, j :: 0 <= i < j < |d| ==> d[i].score != d[j].score
  }

  /** d[k]: the player stored under score k. */
  function Lookup(d: HighscoreDict, k: int): string
    requires k in Keys(d)
  {
    assert Keys(d) == [d[0].score] + Keys(d[1..]);
    if d[0].score == k then d[0].player else Lookup(d[1..], k)
  }

  /** The value found is stored under the key looked up. */
  lemma {:induction false} LookupFound(d: HighscoreDict, k: int)
    requires k in Keys(d)
    ensures Entry(k, Lookup(d, k)) in d
  {
    assert Keys(d) == [d[0].score] + Keys(d[1..]);
    if d[0].score != k {
      LookupFound(d[1..], k);
    }
  }

  /** With distinct keys, looking up the key of a pair finds that pair's value. */
  lemma {:induction false} LookupUnique(d: HighscoreDict, i: nat)
    requires DistinctKeys(d) && i < |d|
    ensures d[i].score in Keys(d) && Lookup(d, d[i].score) == d[i].player
  {
    assert Keys(d)[i] == d[i].score;
    if i > 0 {
      assert d[0].score != d[i].score;
      assert d[1..][i - 1] == d[i];
      LookupUnique(d[1..], i - 1);
    }
  }

  /** max(d): the largest score. */
  function MaxScore(d: HighscoreDict): (m: int)
    requires d != []
    ensures m in Keys(d) && forall k :: k in Keys(d) ==> k <= m
  {
    assert Keys(d) == [d[0].score] + Keys(d[1..]);
    if |d| == 1 then d[0].score
    else
      var t := MaxScore(d[1..]);
      if d[0].score >= t then d[0].score else t
  }

  /** d.update({k: name}): overwrite the value of an existing key in place, else append. */
  function Update(d: HighscoreDict, k: int, name: string): (r: HighscoreDict)
    ensures |r| == |d| || |r| == |d| + 1
  {
    if d == [] then [Entry(k, name)]
    else if d[0].score == k then [Entry(k, name)] + d[1..]
    else [d[0]] + Update(d[1..], k, name)
  }

  /** After the update the key is present and looks up the new name. */
  lemma {:induction false} UpdateStores(d: HighscoreDict, k: int, name: string)
    ensures k in Keys(Update(d, k, name))
    ensures Lookup(Update(d, k, name), k) == name
  {
    var r := Update(d, k, name);
    assert Keys(r)[0] == r[0].score;
    if d != [] && d[0].score != k {
      var t := Update(d[1..], k, name);
      UpdateStores(d[1..], k, name);
      assert r == [d[0]] + t;
      assert Keys(r) == [d[0].score] + Keys(t);
      assert r[1..] == t;
    }
  }

  /** A new key goes to the end of the dict; the pairs already there stay as they were. */
  lemma {:induction false} UpdateNewKey(d: HighscoreDict, k: int, name: string)
    requires k !in Keys(d)
    ensures Update(d, k, name) == d + [Entry(k, name)]
  {
    if d != [] {
      assert Keys(d)[0] == d[0].score;
      assert Keys(d[1..]) == Keys(d)[1..];
      UpdateNewKey(d[1..], k, name);
      assert d == [d[0]] + d[1..];
    }
  }

  /** An existing key keeps its position (its first occurrence) and every other pair is untouched. */
  lemma {:induction false} UpdateExistingKey(d: HighscoreDict, k: int, name: string, i: nat)
    requires i < |d| && d[i].score == k && k !in Keys(d[..i])
    ensures Update(d, k, name) == d[..i] + [Entry(k, name)] + d[i + 1..]
  {
    if i > 0 {
      assert Keys(d[..i])[0] == d[0].score;
      assert d[1..][..i - 1] == d[1..i];
      assert Keys(d[1..][..i - 1]) == Keys(d[..i])[1..];
      UpdateExistingKey(d[1..], k, name, i - 1);
      assert d[..i] == [d[0]] + d[1..i];
    }
  }

  // ---------------------------------------------------------------------
  // sorted(keys, reverse=True)
  // ---------------------------------------------------------------------

  predicate Descending(s: seq<int>) {
    forall i, j :: 0 <= i < j < |s| ==> s[i] >= s[j]
  }

  predicate StrictlyDescending(s: seq<int>) {
    forall i, j :: 0 <= i < j < |s| ==> s[i] > s[j]
  }

  function Insert(x: int, s: seq<int>): (r: seq<int>)
    ensures multiset(r) == multiset(s) + multiset{x}
    ensures |r| == |s| + 1
    ensures r[0] == (if s == [] || x >= s[0] then x else s[0])
  {
    if s == [] then [x]
    else if x >= s[0] then [x] + s
    else
      assert s == [s[0]] + s[1..];
      [s[0]] + Insert(x, s[1..])
  }

  /** Inserting into a descending sequence keeps it descending. */
  lemma {:induction false} InsertDescends(x: int, s: seq<int>)
    requires Descending(s)
    ensures Descending(Insert(x, s))
  {
    if s != [] && x < s[0] {
      var t := Insert(x, s[1..]);
      InsertDescends(x, s[1..]);
      var r := [s[0]] + t;
      assert |s| > 1 ==> s[0] >= s[1];
      assert r[0] >= t[0];
      forall i, j | 0 <= i < j < |r| ensures r[i] >= r[j] {
        assert r[j] == t[j - 1];
        if i > 0 {
          assert r[i] == t[i - 1];
        } else {
          assert t[0] >= t[j - 1];
        }
      }
    }
  }

  /** Inserting a new key into a strictly descending sequence keeps it strictly descending. */
  lemma {:induction false} InsertStrict(x: int, s: seq<int>)
    requires StrictlyDescending(s) && x !in s
    ensures StrictlyDescending(Insert(x, s))
  {
    if s != [] && x < s[0] {
      var t := Insert(x, s[1..]);
      assert x !in s[1..];
      InsertStrict(x, s[1..]);
      var r := [s[0]] + t;
      assert |s| > 1 ==> s[0] > s[1];
      assert r[0] > t[0];
      forall i, j | 0 <= i < j < |r| ensures r[i] > r[j] {
        assert r[j] == t[j - 1];
        if i > 0 {
          assert r[i] == t[i - 1];
        } else {
          assert t[0] >= t[j - 1];
        }
      }
    }
  }

  /** sorted(s, reverse=True), as an insertion sort. */
  function SortDescending(s: seq<int>): (r: seq<int>)
    ensures multiset(r) == multiset(s)
    ensures Descending(r)
  {
    if s == [] then []
    else
      assert s == [s[0]] + s[1..];
      var t := SortDescending(s[1..]);
      InsertDescends(s[0], t);
      Insert(s[0], t)
  }

  predicate DistinctInts(s: seq<int>) {
    forall i, j :: 0 <= i < j < |s| ==> s[i] != s[j]
  }

  /** Sorting distinct keys gives a strictly descending sequence. */
  lemma {:induction false} SortStrict(s: seq<int>)
    requires DistinctInts(s)
    ensures StrictlyDescending(SortDescending(s))
  {
    if s != [] {
      var t := SortDescending(s[1..]);
      SortStrict(s[1..]);
      assert s[0] !in s[1..];
      assert s[0] !in multiset(t);
      InsertStrict(s[0], t);
      assert s == [s[0]] + s[1..];
    }
  }

  // ---------------------------------------------------------------------
  // The ten highest entries
  // ---------------------------------------------------------------------

  function Min(a: int, b: int): int { if a < b then a else b }

  /** sorted(d, reverse=True)[:10] */
  function TopScores(d: HighscoreDict): (r: seq<int>)
    ensures |r| == Min(10, |d|)
    ensures forall k :: k in r ==> k in Keys(d)
  {
    var sorted := SortDescending(Keys(d));
    var top := sorted[..Min(10, |d|)];
    assert forall k :: k in top ==> k in sorted;
    assert forall k :: k in sorted ==> k in multiset(Keys(d));
    top
  }

  /** { score: d[score] for score in keys } */
  function Restrict(d: HighscoreDict, keys: seq<int>): (r: HighscoreDict)
    requires forall k :: k in keys ==> k in Keys(d)
    ensures Keys(r) == keys
    ensures forall i :: 0 <= i < |r| ==> r[i] in d
  {
    forall k | k in keys {
      LookupFound(d, k);
    }
    seq(|keys|, i requires 0 <= i < |keys| => Entry(keys[i], Lookup(d, keys[i])))
  }

  /** The dict cut down to its ten highest scores, highest first. */
  function TopTen(d: HighscoreDict): HighscoreDict {
    Restrict(d, TopScores(d))
  }

  /**
    * At most ten entries, strictly descending scores, every entry taken
    * from the dict, and every entry left out scoring below every entry kept.
    */
  lemma TopTenProperties(d: HighscoreDict)
    requires DistinctKeys(d)
    ensures |TopTen(d)| == Min(10, |d|) <= 10
    ensures StrictlyDescending(Keys(TopTen(d)))
    ensures forall e :: e in TopTen(d) ==> e in d
    ensures forall e, i :: e in d && e.score !in Keys(TopTen(d)) && 0 <= i < |TopTen(d)| ==>
      e.score < TopTen(d)[i].score
  {
    var keys := Keys(d);
    var sorted := SortDescending(keys);
    assert DistinctInts(keys);
    SortStrict(keys);
    var top := TopTen(d);
    assert Keys(top) == sorted[..Min(10, |d|)];
    forall e, i | e in d && e.score !in Keys(top) && 0 <= i < |top|
      ensures e.score < top[i].score
    {
      var m :| 0 <= m < |d| && d[m] == e;
      assert e.score in multiset(keys);
      assert e.score in sorted;
      var p :| 0 <= p < |sorted| && sorted[p] == e.score;
      assert p >= Min(10, |d|);
      assert top[i].score == sorted[i];
    }
  }

  /** Adding a key that is not there keeps the keys distinct. */
  lemma AppendNewKey(d: HighscoreDict, e: Entry)
    requires DistinctKeys(d) && e.score !in Keys(d)
    ensures DistinctKeys(d + [e])
  {
    var u := d + [e];
    forall i, j | 0 <= i < j < |u| ensures u[i].score != u[j].score {
      if j == |d| {
        assert u[i].score == Keys(d)[i];
      } else {
        assert u[i] == d[i] && u[j] == d[j];
      }
    }
  }

  /** The cut-down dict has distinct keys, and it leads with the largest score of the dict. */
  lemma TopTenHead(d: HighscoreDict, k: int)
    requires DistinctKeys(d) && d != []
    requires k in Keys(d) && forall k' :: k' in Keys(d) ==> k' <= k
    ensures DistinctKeys(TopTen(d))
    ensures TopTen(d) != [] && TopTen(d)[0] == Entry(k, Lookup(d, k))
    ensures forall i :: 0 <= i < |TopTen(d)| ==> TopTen(d)[i].score <= k
  {
    TopTenProperties(d);
    var r := TopTen(d);
    var keys := Keys(r);
    assert DistinctKeys(r) by {
      forall i, j | 0 <= i < j < |r| ensures r[i].score != r[j].score {
        assert keys[i] > keys[j];
      }
    }
    assert r[0].score == keys[0];
    assert r[0] in d;
    assert keys[0] == k;
    assert r[0] == Entry(keys[0], Lookup(d, keys[0]));
    forall i | 0 <= i < |r| ensures r[i].score <= k {
      assert r[i] in d;
      assert r[i].score in Keys(d);
    }
  }

  // ---------------------------------------------------------------------
  // The printout
  // ---------------------------------------------------------------------

  const TITLE := " <<< HIGHSCORES >>> "

  /** f"{score: >8}: {player}" */
  function EntryLine(e: Entry): (line: string)
    ensures |line| >= 8 + 2
  {
    PadLeft(IntToString(e.score), 8) + ": " + e.player
  }

  function EntryLines(d: HighscoreDict): (lines: seq<string>)
    ensures |lines| == |d|
    ensures forall i :: 0 <= i < |d| ==> lines[i] == EntryLine(d[i])
  {
    seq(|d|, i requires 0 <= i < |d| => EntryLine(d[i]))
  }

  /** HighscoreDict._toString: the centred title, a newline, then one line per top entry. */
  function ToString(d: HighscoreDict): string {
    Center(TITLE, 20) + "\n" + Join("\n", EntryLines(TopTen(d)))
  }

  /** The title is 20 characters wide, so centring it in 20 leaves it as it is. */
  lemma TitleUnchanged()
    ensures |TITLE| == 20 && Center(TITLE, 20) == TITLE
  {
  }

  /** The printout starts with the title and a newline; an empty dict prints nothing else. */
  lemma ToStringShape(d: HighscoreDict)
    ensures ToString(d)[..21] == TITLE + "\n"
    ensures d == [] ==> ToString(d) == TITLE + "\n"
    ensures |d| == 1 ==> ToString(d) == TITLE + "\n" + EntryLine(d[0])
  {
    TitleUnchanged();
  }

  /**
    * The printout of a non-empty dict: the title and a newline, the line of
    * the highest score, then each further top entry's line with a newline
    * in front of it, so lines are separated and none ends in a newline.
    */
  lemma ToStringLines(d: HighscoreDict)
    requires d != []
    ensures TopTen(d) != []
    ensures var lines := EntryLines(TopTen(d));
      ToString(d) == TITLE + "\n" + (lines[0] + Prefixed("\n", lines[1..]))
    ensures var lines := EntryLines(TopTen(d));
      |lines| >= 2 ==>
        ToString(d) == TITLE + "\n" + (Join("\n", lines[..|lines| - 1]) + "\n" + lines[|lines| - 1])
  {
    TitleUnchanged();
    var lines := EntryLines(TopTen(d));
    JoinIsFirstThenPrefixed("\n", lines);
    if |lines| >= 2 {
      JoinLast("\n", lines);
    }
  }

  /** An entry line is str(score) right-aligned in eight columns, then ": ", then the name. */
  lemma EntryLineShape(e: Entry)
    ensures var s := IntToString(e.score);
      var width := if |s| < 8 then 8 else |s|;
      var line := EntryLine(e);
      && |line| == width + 2 + |e.player|
      && (forall i :: 0 <= i < width - |s| ==> line[i] == ' ')
      && line[width - |s|..width] == s
      && line[width..width + 2] == ": "
      && line[width + 2..] == e.player
  {
    var s := IntToString(e.score);
    var pad := PadLeft(s, 8);
    assert EntryLine(e) == pad + ": " + e.player;
  }
}
