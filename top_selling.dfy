/**
 * The "top products" rule shared by both servers' report routes: the sold lines are grouped by
 * product id (first name and image kept, quantities and revenue summed), sorted by quantity sold,
 * highest first, and cut to a limit.
 */
module TopSelling {
  import opened Wrappers
  import opened Seqs
  import opened Catalog

  /** One order line after `$unwind`: the product id and the snapshot taken at sale time. */
  datatype SoldLine = SoldLine(id: Id, name: string, imageUrl: string, price: int, quantity: int)

  /** One `$group` bucket. */
  datatype Tally = Tally(id: Id, name: string, imageUrl: string, quantity: int, revenue: int)

  function TallyQuantity(t: Tally): int {
    t.quantity
  }

  /** Reference definition of `$sum: quantity` for one product id. */
  function QuantityOf(lines: seq<SoldLine>, id: Id): int {
    if lines == [] then 0
    else
      var last := lines[|lines| - 1];
      QuantityOf(lines[..|lines| - 1], id) + (if last.id == id then last.quantity else 0)
  }

  /** Reference definition of `$sum: price * quantity` for one product id. */
  function RevenueOf(lines: seq<SoldLine>, id: Id): int {
    if lines == [] then 0
    else
      var last := lines[|lines| - 1];
      RevenueOf(lines[..|lines| - 1], id) + (if last.id == id then last.price * last.quantity else 0)
  }

  /** Reference definition of `$first`: the earliest line sold under that id. */
  function FirstWith(lines: seq<SoldLine>, id: Id): Option<SoldLine> {
    if lines == [] then None
    else if lines[0].id == id then Some(lines[0])
    else FirstWith(lines[1..], id)
  }

  predicate Tallied(ts: seq<Tally>, id: Id) {
    exists i :: 0 <= i < |ts| && ts[i].id == id
  }

  ghost predicate DistinctTallyIds(ts: seq<Tally>) {
    forall i, j :: 0 <= i < j < |ts| ==> ts[i].id != ts[j].id
  }

  function NewTally(line: SoldLine): Tally {
    Tally(line.id, line.name, line.imageUrl, line.quantity, line.price * line.quantity)
  }

  /** Adds one sold line to its product's bucket, or opens a bucket for it at the end. */
  function Absorb(ts: seq<Tally>, line: SoldLine): seq<Tally> {
    if ts == [] then [NewTally(line)]
    else if ts[0].id == line.id then
      [ts[0].(quantity := ts[0].quantity + line.quantity,
              revenue := ts[0].revenue + line.price * line.quantity)] + ts[1..]
    else [ts[0]] + Absorb(ts[1..], line)
  }

  /** `$group` over the lines, buckets in order of first sale. */
  function Group(lines: seq<SoldLine>): seq<Tally> {
    if lines == [] then [] else Absorb(Group(lines[..|lines| - 1]), lines[|lines| - 1])
  }

  /** On buckets with distinct ids, absorbing a line changes only its own bucket, position by position. */
  lemma {:induction false} AbsorbPointwise(ts: seq<Tally>, line: SoldLine)
    requires DistinctTallyIds(ts)
    ensures var r := Absorb(ts, line);
      && |r| == (if Tallied(ts, line.id) then |ts| else |ts| + 1)
      && (!Tallied(ts, line.id) ==> r[|ts|] == NewTally(line))
      && (forall i :: 0 <= i < |ts| ==>
            && r[i].id == ts[i].id && r[i].name == ts[i].name && r[i].imageUrl == ts[i].imageUrl
            && r[i].quantity == ts[i].quantity + (if ts[i].id == line.id then line.quantity else 0)
            && r[i].revenue == ts[i].revenue + (if ts[i].id == line.id then line.price * line.quantity else 0))
  {
    if ts != [] && ts[0].id != line.id {
      var tail := ts[1..];
      assert DistinctTallyIds(tail) by {
        forall i, j | 0 <= i < j < |tail| ensures tail[i].id != tail[j].id {
          assert tail[i] == ts[i + 1] && tail[j] == ts[j + 1];
        }
      }
      AbsorbPointwise(tail, line);
      assert Tallied(ts, line.id) <==> Tallied(tail, line.id) by {
        if Tallied(ts, line.id) {
          var i :| 0 <= i < |ts| && ts[i].id == line.id;
          assert tail[i - 1].id == line.id;
        }
        if Tallied(tail, line.id) {
          var i :| 0 <= i < |tail| && tail[i].id == line.id;
          assert ts[i + 1].id == line.id;
        }
      }
    } else if ts != [] {
      assert Tallied(ts, line.id) by { assert ts[0].id == line.id; }
      forall i | 0 < i < |ts| ensures ts[i].id != line.id {
        assert ts[0].id != ts[i].id;
      }
    }
  }

  /** On buckets with distinct ids, absorbing a line touches only its own bucket. */
  lemma AbsorbFacts(ts: seq<Tally>, line: SoldLine)
    requires DistinctTallyIds(ts)
    ensures var r := Absorb(ts, line);
      && DistinctTallyIds(r)
      && |r| == (if Tallied(ts, line.id) then |ts| else |ts| + 1)
      && (!Tallied(ts, line.id) ==> r[|ts|] == NewTally(line))
      && (forall i :: 0 <= i < |ts| ==>
            && r[i].id == ts[i].id && r[i].name == ts[i].name && r[i].imageUrl == ts[i].imageUrl
            && r[i].quantity == ts[i].quantity + (if ts[i].id == line.id then line.quantity else 0)
            && r[i].revenue == ts[i].revenue + (if ts[i].id == line.id then line.price * line.quantity else 0))
  {
    AbsorbPointwise(ts, line);
    var r := Absorb(ts, line);
    forall i, j | 0 <= i < j < |r| ensures r[i].id != r[j].id {
      if j == |ts| {
        assert r[j].id == line.id && r[i].id == ts[i].id;
      }
    }
  }

  /** `$first`: appending a line keeps the first sale of every id already sold. */
  lemma {:induction false} FirstWithAppend(s: seq<SoldLine>, x: SoldLine, id: Id)
    ensures FirstWith(s + [x], id) ==
      if FirstWith(s, id).Some? then FirstWith(s, id) else if x.id == id then Some(x) else None
    decreases |s|
  {
    if s != [] {
      assert (s + [x])[0] == s[0];
      assert (s + [x])[1..] == s[1..] + [x];
      FirstWithAppend(s[1..], x, id);
    }
  }

  lemma {:induction false} UnsoldIsAbsent(lines: seq<SoldLine>, id: Id)
    requires forall j :: 0 <= j < |lines| ==> lines[j].id != id
    ensures QuantityOf(lines, id) == 0 && RevenueOf(lines, id) == 0 && FirstWith(lines, id) == None
    decreases |lines|
  {
    if lines != [] {
      UnsoldIsAbsent(lines[..|lines| - 1], id);
      FirstWithAppend(lines[..|lines| - 1], lines[|lines| - 1], id);
      assert lines[..|lines| - 1] + [lines[|lines| - 1]] == lines;
    }
  }

  /** After absorbing a line, exactly the ids that had a bucket, and the line's id, have one. */
  lemma TalliedAfterAbsorb(ts: seq<Tally>, line: SoldLine, id: Id)
    requires DistinctTallyIds(ts)
    ensures Tallied(Absorb(ts, line), id) <==> Tallied(ts, id) || id == line.id
  {
    AbsorbFacts(ts, line);
    var r := Absorb(ts, line);
    if Tallied(ts, id) {
      var i :| 0 <= i < |ts| && ts[i].id == id;
      assert r[i].id == id;
    } else if id == line.id {
      assert r[|ts|].id == id;
    }
    if Tallied(r, id) {
      var i :| 0 <= i < |r| && r[i].id == id;
      if i < |ts| {
        assert ts[i].id == id;
      }
    }
  }

  /** Bucket ids are distinct, there are no more buckets than lines, and every sold id has one. */
  lemma {:induction false} GroupShape(lines: seq<SoldLine>)
    ensures var g := Group(lines);
      && DistinctTallyIds(g)
      && |g| <= |lines|
      && (forall j :: 0 <= j < |lines| ==> Tallied(g, lines[j].id))
    decreases |lines|
  {
    if lines != [] {
      var front := lines[..|lines| - 1];
      var x := lines[|lines| - 1];
      GroupShape(front);
      var prev := Group(front);
      var g := Group(lines);
      AbsorbFacts(prev, x);
      forall j | 0 <= j < |lines| ensures Tallied(g, lines[j].id) {
        TalliedAfterAbsorb(prev, x, lines[j].id);
        if j < |front| {
          assert lines[j] == front[j];
        }
      }
    }
  }

  /** The bucket of a product carries what its reference definitions say, given the buckets before the last line. */
  ghost predicate BucketAgrees(lines: seq<SoldLine>, t: Tally) {
    && t.quantity == QuantityOf(lines, t.id)
    && t.revenue == RevenueOf(lines, t.id)
    && FirstWith(lines, t.id).Some?
    && FirstWith(lines, t.id).value.name == t.name
    && FirstWith(lines, t.id).value.imageUrl == t.imageUrl
  }

  lemma NewBucketAgrees(front: seq<SoldLine>, x: SoldLine)
    requires forall j :: 0 <= j < |front| ==> front[j].id != x.id
    ensures BucketAgrees(front + [x], NewTally(x))
  {
    var lines := front + [x];
    assert lines[..|lines| - 1] == front;
    UnsoldIsAbsent(front, x.id);
    FirstWithAppend(front, x, x.id);
  }

  lemma OldBucketAgrees(front: seq<SoldLine>, x: SoldLine, old_: Tally, t: Tally)
    requires BucketAgrees(front, old_)
    requires t.id == old_.id && t.name == old_.name && t.imageUrl == old_.imageUrl
    requires t.quantity == old_.quantity + (if old_.id == x.id then x.quantity else 0)
    requires t.revenue == old_.revenue + (if old_.id == x.id then x.price * x.quantity else 0)
    ensures BucketAgrees(front + [x], t)
  {
    var lines := front + [x];
    assert lines[..|lines| - 1] == front;
    FirstWithAppend(front, x, t.id);
  }

  /**
   * Every bucket carries the summed quantity and revenue of its product id and the name and
   * image of that product's first sale.
   */
  lemma {:induction false} GroupSums(lines: seq<SoldLine>)
    ensures var g := Group(lines);
      forall i :: 0 <= i < |g| ==> BucketAgrees(lines, g[i])
    decreases |lines|
  {
    if lines != [] {
      var front := lines[..|lines| - 1];
      var x := lines[|lines| - 1];
      assert front + [x] == lines;
      GroupSums(front);
      GroupShape(front);
      var prev := Group(front);
      var g := Group(lines);
      AbsorbFacts(prev, x);
      forall i | 0 <= i < |g| ensures BucketAgrees(lines, g[i]) {
        if i < |prev| {
          OldBucketAgrees(front, x, prev[i], g[i]);
        } else {
          assert !Tallied(prev, x.id);
          forall j | 0 <= j < |front| ensures front[j].id != x.id {
            assert Tallied(prev, front[j].id);
          }
          NewBucketAgrees(front, x);
        }
      }
    }
  }

  /** The buckets, highest quantity first. */
  function Ranked(lines: seq<SoldLine>): seq<Tally> {
    SortDescBy(Group(lines), TallyQuantity)
  }

  /** `$sort: { quantity: -1 }` then `$limit`. */
  function Top(lines: seq<SoldLine>, limit: nat): seq<Tally> {
    Take(Ranked(lines), limit)
  }

  /** An element that occurs at most once is at no other position. */
  lemma NoRepeatWhenCountOnce<T>(s: seq<T>, i: nat, j: nat)
    requires i < j < |s| && multiset(s)[s[i]] <= 1
    ensures s[i] != s[j]
  {
    assert s == s[..j] + [s[j]] + s[j + 1..];
    assert s[i] in s[..j];
  }

  lemma {:induction false} DistinctCountsOnce(g: seq<Tally>, t: Tally)
    requires DistinctTallyIds(g)
    ensures multiset(g)[t] <= 1
    decreases |g|
  {
    if g != [] {
      assert g == [g[0]] + g[1..];
      DistinctCountsOnce(g[1..], t);
      if g[0] == t {
        forall k | 0 <= k < |g[1..]| ensures g[1..][k] != t {
          assert g[0].id != g[k + 1].id;
        }
      }
    }
  }

  /** At most `limit` entries, highest quantity first, each one a bucket of the grouping. */
  lemma {:induction false} TopShape(lines: seq<SoldLine>, limit: nat)
    ensures var g := Group(lines);
      var r := Top(lines, limit);
      && |r| == (if |g| <= limit then |g| else limit)
      && SortedDescBy(r, TallyQuantity)
      && (forall i :: 0 <= i < |r| ==> r[i] in g)
  {
    var g := Group(lines);
    var s := Ranked(lines);
    var r := Top(lines, limit);
    assert r == s[..|r|];
    forall i | 0 <= i < |r| ensures r[i] in g {
      assert s[i] in multiset(s);
    }
  }

  /** Each listed entry carries the summed quantity and revenue, and the first-sold name, of its product. */
  lemma {:induction false} TopAgrees(lines: seq<SoldLine>, limit: nat)
    ensures var r := Top(lines, limit);
      forall i :: 0 <= i < |r| ==> BucketAgrees(lines, r[i])
  {
    var g := Group(lines);
    var r := Top(lines, limit);
    TopShape(lines, limit);
    GroupSums(lines);
    forall i | 0 <= i < |r| ensures BucketAgrees(lines, r[i]) {
      var a :| 0 <= a < |g| && g[a] == r[i];
    }
  }

  /** No product is listed twice. */
  lemma {:induction false} TopDistinct(lines: seq<SoldLine>, limit: nat)
    ensures DistinctTallyIds(Top(lines, limit))
  {
    var g := Group(lines);
    var s := Ranked(lines);
    var r := Top(lines, limit);
    TopShape(lines, limit);
    GroupShape(lines);
    assert r == s[..|r|];
    forall i, j | 0 <= i < j < |r| ensures r[i].id != r[j].id {
      DistinctCountsOnce(g, s[i]);
      NoRepeatWhenCountOnce(s, i, j);
      var a :| 0 <= a < |g| && g[a] == r[i];
      var b :| 0 <= b < |g| && g[b] == r[j];
      assert a != b;
    }
  }

  /** A bucket left off the list means the list is full and that bucket sold no more than any listed one. */
  lemma {:induction false} TopCutoff(lines: seq<SoldLine>, limit: nat)
    ensures var g := Group(lines);
      var r := Top(lines, limit);
      forall t :: t in g && t !in r ==>
        |r| == limit && forall i :: 0 <= i < |r| ==> t.quantity <= r[i].quantity
  {
    var g := Group(lines);
    var s := Ranked(lines);
    var r := Top(lines, limit);
    assert r == s[..|r|];
    forall t | t in g && t !in r
      ensures |r| == limit && forall i :: 0 <= i < |r| ==> t.quantity <= r[i].quantity
    {
      assert t in multiset(g);
      assert t in multiset(s);
      var k :| 0 <= k < |s| && s[k] == t;
      assert k >= |r|;
    }
  }

  /**
   * A product that was sold but is not on the list: the list is full and the product sold no more
   * units than any listed one.
   */
  lemma {:induction false} UnlistedSoldNoMore(lines: seq<SoldLine>, limit: nat, j: nat)
    requires j < |lines|
    requires forall i :: 0 <= i < |Top(lines, limit)| ==> Top(lines, limit)[i].id != lines[j].id
    ensures var r := Top(lines, limit);
      && |r| == limit
      && forall i :: 0 <= i < |r| ==> QuantityOf(lines, lines[j].id) <= r[i].quantity
  {
    var g := Group(lines);
    var r := Top(lines, limit);
    GroupShape(lines);
    GroupSums(lines);
    TopCutoff(lines, limit);
    var k :| 0 <= k < |g| && g[k].id == lines[j].id;
    assert BucketAgrees(lines, g[k]);
    assert g[k] !in r;
  }
}
