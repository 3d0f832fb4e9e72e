/**
 * The image source of `src/api/cataas.js`: `fetchCats(count)` builds a list of
 * `{id, url}` records with pairwise distinct ids, retrying a slot whenever a
 * generated id repeats.
 *
 * The clock (`Date.now()`) and the random id suffix (`Math.random()`) are not
 * part of the model; each pass of the loop instead consumes one `Draw` of an
 * input sequence, which also bounds the number of passes.
 */
module Cataas {
  import opened Cats

  const CataasBaseUrl: string := "https://cataas.com/cat"

  /** What one pass of the loop reads from its environment: the clock when it
      builds the url, the clock when it builds the id, and the random suffix
      (`Math.random().toString(36).substring(2, 10)`). */
  datatype Draw = Draw(urlClock: nat, idClock: nat, suffix: string)

  // ---------------------------------------------------------------------------
  // Decimal rendering of a non-negative integer, as a template literal does it

  predicate IsDigit(c: char) { '0' <= c <= '9' }

  function DigitChar(d: nat): (c: char)
    requires d < 10
    ensures IsDigit(c)
    ensures c as int - '0' as int == d
  {
    ('0' as int + d) as char
  }

  /** The decimal digits of `n`, most significant first, without leading zeros. */
  function Decimal(n: nat): (s: string)
    ensures |s| >= 1
    ensures forall k :: 0 <= k < |s| ==> IsDigit(s[k])
    ensures n >= 10 ==> s[0] != '0'
    decreases n
  {
    if n < 10 then [DigitChar(n)] else Decimal(n / 10) + [DigitChar(n % 10)]
  }

  /** The number a string of decimal digits denotes; the partner of `Decimal`. */
  function DecimalValue(s: string): nat
    requires forall k :: 0 <= k < |s| ==> IsDigit(s[k])
  {
    if s == [] then 0
    else DecimalValue(s[..|s| - 1]) * 10 + DigitValue(s[|s| - 1])
  }

  function DigitValue(c: char): (d: nat)
    requires IsDigit(c)
    ensures d < 10
  {
    c as int - '0' as int
  }

  lemma {:induction false} DecimalRoundTrip(n: nat)
    ensures DecimalValue(Decimal(n)) == n
    decreases n
  {
    if n >= 10 {
      var s := Decimal(n);
      assert s[..|s| - 1] == Decimal(n / 10);
      DecimalRoundTrip(n / 10);
    }
  }

  /** Distinct clocks render as distinct strings. */
  lemma DecimalInjective(a: nat, b: nat)
    ensures Decimal(a) == Decimal(b) <==> a == b
  {
    if Decimal(a) == Decimal(b) {
      DecimalRoundTrip(a);
      DecimalRoundTrip(b);
    }
  }

  // ---------------------------------------------------------------------------
  // The records

  const UrlQuery: string := "?width=400&height=400&_="

  /** The cache-busting url of slot `slot`. */
  function ImageUrl(clock: nat, slot: nat): string {
    CataasBaseUrl + UrlQuery + Decimal(clock + slot)
  }

  /** A url is the base url and the fixed query, ending in the digits of the
      clock plus the slot number, which read back as that number. */
  lemma ImageUrlLayout(clock: nat, slot: nat)
    ensures var url, prefix := ImageUrl(clock, slot), CataasBaseUrl + UrlQuery;
      |url| > |prefix| &&
      url[..|prefix|] == prefix &&
      (forall k :: |prefix| <= k < |url| ==> IsDigit(url[k])) &&
      DecimalValue(url[|prefix|..]) == clock + slot
  {
    var url, prefix := ImageUrl(clock, slot), CataasBaseUrl + UrlQuery;
    assert url[|prefix|..] == Decimal(clock + slot);
    DecimalRoundTrip(clock + slot);
  }

  /** `cat-<clock>-<suffix>`. */
  function CatId(d: Draw): string {
    "cat-" + Decimal(d.idClock) + "-" + d.suffix
  }

  /** An id is `cat-`, the digits of the id clock, which read back as the
      clock, the `-` that ends them, then the suffix. */
  lemma CatIdLayout(d: Draw)
    ensures var id, n := CatId(d), |Decimal(d.idClock)|;
      |id| == 5 + n + |d.suffix| &&
      id[..4] == "cat-" &&
      id[4..4 + n] == Decimal(d.idClock) &&
      (forall k :: 4 <= k < 4 + n ==> IsDigit(id[k])) &&
      DecimalValue(id[4..4 + n]) == d.idClock &&
      id[4 + n] == '-' &&
      id[5 + n..] == d.suffix
  {
    var id, n := CatId(d), |Decimal(d.idClock)|;
    assert id[4..4 + n] == Decimal(d.idClock);
    DecimalRoundTrip(d.idClock);
  }

  /** The record built for slot `slot` from draw `d`. */
  function Entry(d: Draw, slot: nat): Cat {
    Cat(CatId(d), ImageUrl(d.urlClock, slot))
  }

  /** Two draws give the same id exactly when their id clocks and suffixes
      agree: the digits of the clock never contain the `-` that ends them. */
  lemma CatIdInjective(d1: Draw, d2: Draw)
    ensures CatId(d1) == CatId(d2) <==> d1.idClock == d2.idClock && d1.suffix == d2.suffix
  {
    var a, b := Decimal(d1.idClock), Decimal(d2.idClock);
    CatIdLayout(d1);
    CatIdLayout(d2);
    if CatId(d1) == CatId(d2) {
      assert |a| == |b| by {
        if |a| < |b| {
          assert false;
        } else if |b| < |a| {
          assert false;
        }
      }
      DecimalInjective(d1.idClock, d2.idClock);
    }
  }

  /** The `fetchedIds` set that mirrors a list of records. */
  function Ids(cats: seq<Cat>): set<string> {
    set c | c in cats :: c.id
  }

  predicate DistinctIds(cats: seq<Cat>) {
    forall j, k :: 0 <= j < k < |cats| ==> cats[j].id != cats[k].id
  }

  // ---------------------------------------------------------------------------
  // The loop, first as a specification function, then as the method itself

  /** One pass of the loop body for slot `|cats|`: a fresh id appends its
      record, a repeated one appends nothing (the slot is tried again); either
      way the id is then among the ids met, as `fetchedIds.add` makes it. */
  function Attempt(cats: seq<Cat>, d: Draw): (next: seq<Cat>)
    ensures cats <= next && |next| <= |cats| + 1
    ensures Ids(next) == Ids(cats) + {CatId(d)}
    ensures |next| == |cats| <==> CatId(d) in Ids(cats)
    ensures DistinctIds(cats) ==> DistinctIds(next)
  {
    if CatId(d) in Ids(cats) then cats
    else
      var next := cats + [Entry(d, |cats|)];
      assert forall c :: c in next <==> c in cats || c == next[|cats|];
      next
  }

  function Max0(n: int): nat { if n < 0 then 0 else n }

  /** The list the loop returns when it resumes with `cats` built so far and
      `draws` still to consume. Records already built are never changed or
      dropped, no more than `count` are built, and distinct ids stay distinct. */
  function Collect(count: int, draws: seq<Draw>, cats: seq<Cat>): (r: seq<Cat>)
    ensures cats <= r
    ensures |r| <= if |cats| < count then count else |cats|
    ensures DistinctIds(cats) ==> DistinctIds(r)
    decreases |draws|
  {
    if |cats| >= count || draws == [] then cats
    else Collect(count, draws[1..], Attempt(cats, draws[0]))
  }

  /** The ids of a prefix are ids of the whole list. */
  lemma IdsGrow(a: seq<Cat>, b: seq<Cat>)
    requires a <= b
    ensures Ids(a) <= Ids(b)
  {
    forall c | c in a ensures c in b {
      var k :| 0 <= k < |a| && a[k] == c;
      assert b[k] == c;
    }
  }

  /** A list has no more distinct ids than records. */
  lemma {:induction false} IdsBound(cats: seq<Cat>)
    ensures |Ids(cats)| <= |cats|
  {
    if cats != [] {
      var init := cats[..|cats| - 1];
      assert cats == init + [cats[|cats| - 1]];
      assert Ids(cats) == Ids(init) + {cats[|cats| - 1].id};
      IdsBound(init);
    }
  }

  /** The retry never gives up a slot: if the list stops short of `count`,
      every draw was tried and its id is among the ids built, so the draws
      ran out before `count` distinct ids were met. */
  lemma {:induction false} CollectFullUnlessExhausted(count: int, draws: seq<Draw>, cats: seq<Cat>)
    ensures |Collect(count, draws, cats)| < count ==>
      forall j :: 0 <= j < |draws| ==> CatId(draws[j]) in Ids(Collect(count, draws, cats))
    decreases |draws|
  {
    if |cats| < count && draws != [] {
      var next := Attempt(cats, draws[0]);
      var r := Collect(count, draws[1..], next);
      CollectFullUnlessExhausted(count, draws[1..], next);
      IdsGrow(next, r);
      if |r| < count {
        forall j | 0 <= j < |draws| ensures CatId(draws[j]) in Ids(r) {
          if j > 0 {
            assert draws[j] == draws[1..][j - 1];
          }
        }
      }
    }
  }

  /** The ids the draws would give. */
  function DrawIds(draws: seq<Draw>): set<string> {
    set d | d in draws :: CatId(d)
  }

  /** Repeated ids only cost draws: once the draws hold `count` distinct ids,
      the list is full. */
  lemma CollectComplete(count: int, draws: seq<Draw>)
    requires |DrawIds(draws)| >= count
    ensures |Collect(count, draws, [])| == Max0(count)
  {
    var r := Collect(count, draws, []);
    if |r| < Max0(count) {
      CollectFullUnlessExhausted(count, draws, []);
      assert DrawIds(draws) <= Ids(r) by {
        forall d | d in draws ensures CatId(d) in Ids(r) {
          var j :| 0 <= j < |draws| && draws[j] == d;
        }
      }
      IdsBound(r);
      SubsetCard(DrawIds(draws), Ids(r));
      assert false;
    }
  }

  lemma SubsetCard(a: set<string>, b: set<string>)
    requires a <= b
    ensures |a| <= |b|
  {
    assert b == a + (b - a);
  }

  /** A pass that adds a record adds the entry of its draw for the next slot. */
  lemma AttemptAppends(cats: seq<Cat>, d: Draw)
    requires |Attempt(cats, d)| > |cats|
    ensures Attempt(cats, d) == cats + [Entry(d, |cats|)]
  {
  }

  /** Every record of slot `k` beyond `cats` is the entry of one of the draws
      for that very slot. */
  lemma {:induction false} CollectEntries(count: int, draws: seq<Draw>, cats: seq<Cat>, k: nat) returns (j: nat)
    requires |cats| <= k < |Collect(count, draws, cats)|
    ensures j < |draws| && Collect(count, draws, cats)[k] == Entry(draws[j], k)
    decreases |draws|
  {
    var next := Attempt(cats, draws[0]);
    var r := Collect(count, draws, cats);
    assert r == Collect(count, draws[1..], next);
    if k < |next| {
      AttemptAppends(cats, draws[0]);
      assert r[k] == next[k];
      j := 0;
    } else {
      var j' := CollectEntries(count, draws[1..], next, k);
      j := j' + 1;
      assert draws[1..][j'] == draws[j];
      assert r[k] == Entry(draws[j], k);
    }
  }

  /** `fetchCats(count)`: the loop of `src/api/cataas.js`, with `fetchedIds`
      kept beside `cats` and the `i--` retry on a repeated id. */
  method FetchCats(count: int, draws: seq<Draw>) returns (cats: seq<Cat>)
    ensures cats == Collect(count, draws, [])
    ensures DistinctIds(cats)
    ensures |cats| <= Max0(count)
    ensures |cats| < Max0(count) ==> forall j :: 0 <= j < |draws| ==> CatId(draws[j]) in Ids(cats)
    ensures |DrawIds(draws)| >= count ==> |cats| == Max0(count)
    ensures forall k :: 0 <= k < |cats| ==>
      exists j :: 0 <= j < |draws| && cats[k] == Entry(draws[j], k)
  {
    cats := [];
    var fetchedIds: set<string> := {};
    var i: int := 0;
    var n := 0;
    while i < count && n < |draws|
      invariant 0 <= n <= |draws|
      invariant 0 <= i == |cats|
      invariant fetchedIds == Ids(cats)
      invariant Collect(count, draws[n..], cats) == Collect(count, draws, [])
      decreases |draws| - n
    {
      var d := draws[n];
      var uniqueUrl := ImageUrl(d.urlClock, i);
      var catId := CatId(d);
      ghost var next := Attempt(cats, d);
      assert draws[n..][1..] == draws[n + 1..];
      if catId !in fetchedIds {
        cats := cats + [Cat(catId, uniqueUrl)];
        fetchedIds := fetchedIds + {catId};
      } else {
        i := i - 1;
      }
      assert cats == next;
      n := n + 1;
      i := i + 1;
    }
    assert i >= count || draws[n..] == [];
    CollectFullUnlessExhausted(count, draws, []);
    if |DrawIds(draws)| >= count {
      CollectComplete(count, draws);
    }
    forall k | 0 <= k < |cats| ensures exists j :: 0 <= j < |draws| && cats[k] == Entry(draws[j], k) {
      var j := CollectEntries(count, draws, [], k);
    }
  }
}
