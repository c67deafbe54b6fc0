/**
  The one-line address shown for a search result: the placemark's present
  components, in a fixed order, joined by ", ", with a fixed fallback text
  when that join is empty.
 */
module AddressFormat {
  import opened Wrappers

  /** The five placemark fields the formatter reads; any may be absent. */
  datatype Placemark = Placemark(
    thoroughfare: Option<string>,
    subThoroughfare: Option<string>,
    locality: Option<string>,
    administrativeArea: Option<string>,
    postalCode: Option<string>)

  const Separator: string := ", "
  const NoAddress: string := "No address available"

  /** The fields in the order they are joined. */
  function Components(p: Placemark): seq<Option<string>>
  {
    [p.thoroughfare, p.subThoroughfare, p.locality, p.administrativeArea, p.postalCode]
  }

  /** Number of present entries. */
  function CountPresent(xs: seq<Option<string>>): (n: nat)
    ensures n <= |xs|
  {
    if xs == [] then 0 else (if xs[0].Some? then 1 else 0) + CountPresent(xs[1..])
  }

  /**
    Swift's `compactMap { $0 }`: drops the absent entries only (an empty
    string is kept), keeping the present values in order.
   */
  function CompactMap(xs: seq<Option<string>>): (r: seq<string>)
    ensures |r| == CountPresent(xs)
  {
    if xs == [] then []
    else
      var rest := CompactMap(xs[1..]);
      if xs[0].Some? then [xs[0].value] + rest else rest
  }

  /** Exactly the present values survive compaction. */
  lemma {:induction false} CompactMapMembers(xs: seq<Option<string>>, s: string)
    ensures s in CompactMap(xs) <==> Some(s) in xs
    decreases |xs|
  {
    if xs != [] {
      CompactMapMembers(xs[1..], s);
      assert xs == [xs[0]] + xs[1..];
    }
  }

  /** Order preservation: compacting a concatenation compacts each part in turn. */
  lemma {:induction false} CompactMapAppend(a: seq<Option<string>>, b: seq<Option<string>>)
    ensures CompactMap(a + b) == CompactMap(a) + CompactMap(b)
    decreases |a|
  {
    if a == [] {
      assert a + b == b;
    } else {
      assert (a + b)[0] == a[0];
      assert (a + b)[1..] == a[1..] + b;
      CompactMapAppend(a[1..], b);
    }
  }

  /** Total length of a list of strings. */
  function TotalLength(xs: seq<string>): nat
  {
    if xs == [] then 0 else |xs[0]| + TotalLength(xs[1..])
  }

  /** Swift's `joined(separator:)`: the items with `sep` between neighbours. */
  function Join(xs: seq<string>, sep: string): (r: string)
    ensures xs != [] ==> |r| == TotalLength(xs) + |sep| * (|xs| - 1)
    ensures xs == [] ==> r == ""
    decreases |xs|
  {
    if xs == [] then ""
    else if |xs| == 1 then xs[0]
    else xs[0] + sep + Join(xs[1..], sep)
  }

  /** Joining two non-empty lists puts one separator between the two joins. */
  lemma {:induction false} JoinAppend(a: seq<string>, b: seq<string>, sep: string)
    requires a != [] && b != []
    ensures Join(a + b, sep) == Join(a, sep) + sep + Join(b, sep)
    decreases |a|
  {
    assert (a + b)[0] == a[0];
    assert (a + b)[1..] == a[1..] + b;
    if |a| > 1 {
      JoinAppend(a[1..], b, sep);
    }
  }

  /** With a non-empty separator, a join is empty exactly for `[]` and `[""]`. */
  lemma JoinEmptyIff(xs: seq<string>, sep: string)
    requires sep != []
    ensures Join(xs, sep) == "" <==> xs == [] || xs == [""]
  {
  }

  /** The joined present components of a placemark, before the fallback. */
  function Joined(p: Placemark): string
  {
    Join(CompactMap(Components(p)), Separator)
  }

  /** The displayed address: the join, or the fallback text when the join is empty. */
  function FormatAddress(p: Placemark): (r: string)
    ensures r != ""
    ensures Joined(p) != "" ==> r == Joined(p)
    ensures Joined(p) == "" ==> r == NoAddress
  {
    var address := Joined(p);
    if address == "" then NoAddress else address
  }

  /**
    When the fallback appears: the join is empty exactly when no component is
    present, or just one is and it is the empty string.
   */
  lemma FallbackIff(p: Placemark)
    ensures Joined(p) == "" <==> CompactMap(Components(p)) == [] || CompactMap(Components(p)) == [""]
    ensures Joined(p) == "" <==>
              CountPresent(Components(p)) == 0 ||
              (CountPresent(Components(p)) == 1 && Some("") in Components(p))
  {
    var c := CompactMap(Components(p));
    JoinEmptyIff(c, Separator);
    if |c| == 1 {
      assert c == [c[0]];
      CompactMapMembers(Components(p), c[0]);
      CompactMapMembers(Components(p), "");
    }
  }

  /** A placemark without any of the five fields shows the fallback text. */
  lemma AllAbsentShowsFallback()
    ensures FormatAddress(Placemark(None, None, None, None, None)) == NoAddress
  {
  }

  /** A fully filled placemark shows all five fields in the fixed order. */
  lemma AllPresentInOrder(t: string, st: string, l: string, a: string, pc: string)
    ensures FormatAddress(Placemark(Some(t), Some(st), Some(l), Some(a), Some(pc)))
         == t + ", " + st + ", " + l + ", " + a + ", " + pc
  {
    var p := Placemark(Some(t), Some(st), Some(l), Some(a), Some(pc));
    CompactFive(t, st, l, a, pc);
    JoinFive(t, st, l, a, pc);
    assert |Joined(p)| >= 2;
  }

  lemma CompactFive(t: string, st: string, l: string, a: string, pc: string)
    ensures CompactMap([Some(t), Some(st), Some(l), Some(a), Some(pc)]) == [t, st, l, a, pc]
  {
    assert [Some(pc)] + [] == [Some(pc)];
    assert [Some(a)] + [Some(pc)] == [Some(a), Some(pc)];
    assert [Some(l)] + [Some(a), Some(pc)] == [Some(l), Some(a), Some(pc)];
    assert [Some(st)] + [Some(l), Some(a), Some(pc)] == [Some(st), Some(l), Some(a), Some(pc)];
    assert [Some(t)] + [Some(st), Some(l), Some(a), Some(pc)] == [Some(t), Some(st), Some(l), Some(a), Some(pc)];
    CompactCons(Some(pc), []);
    CompactCons(Some(a), [Some(pc)]);
    CompactCons(Some(l), [Some(a), Some(pc)]);
    CompactCons(Some(st), [Some(l), Some(a), Some(pc)]);
    CompactCons(Some(t), [Some(st), Some(l), Some(a), Some(pc)]);
  }

  lemma CompactCons(x: Option<string>, xs: seq<Option<string>>)
    ensures CompactMap([x] + xs) == (if x.Some? then [x.value] else []) + CompactMap(xs)
  {
  }

  lemma JoinFive(t: string, st: string, l: string, a: string, pc: string)
    ensures Join([t, st, l, a, pc], ", ") == t + ", " + st + ", " + l + ", " + a + ", " + pc
  {
    var sep := ", ";
    JoinCons(a, [pc], sep);
    JoinCons(l, [a, pc], sep);
    JoinCons(st, [l, a, pc], sep);
    JoinCons(t, [st, l, a, pc], sep);
  }

  lemma JoinCons(x: string, xs: seq<string>, sep: string)
    requires xs != []
    ensures Join([x] + xs, sep) == x + sep + Join(xs, sep)
  {
  }
}
