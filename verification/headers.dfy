/**
 * HTTP header lists (werkzeug `Headers`): an ordered list of (name, value) pairs in which a
 * name may repeat and names are compared without regard to case.
 */
module HttpHeaders {
  import opened Wrappers
  import opened Ascii

  type Headers = seq<(string, string)>

  /** `headers.pop(name, None)`: drops every entry with that name, keeps the others in order. */
  function Remove(h: Headers, name: string): (r: Headers)
    ensures forall p :: p in r <==> p in h && !EqualsIgnoreCase(p.0, name)
    ensures |r| <= |h|
  {
    if h == [] then []
    else if EqualsIgnoreCase(h[0].0, name) then Remove(h[1..], name)
    else [h[0]] + Remove(h[1..], name)
  }

  /** Every entry with another name survives with all its copies; the named ones all go. */
  lemma {:induction false} RemoveCounts(h: Headers, name: string)
    ensures forall p :: multiset(Remove(h, name))[p] == if EqualsIgnoreCase(p.0, name) then 0 else multiset(h)[p]
  {
    if h != [] {
      assert h == [h[0]] + h[1..];
      RemoveCounts(h[1..], name);
    }
  }

  /** Removal works entry by entry, so the surviving entries stay in their original order. */
  lemma {:induction false} RemoveAppend(a: Headers, b: Headers, name: string)
    ensures Remove(a + b, name) == Remove(a, name) + Remove(b, name)
  {
    if a == [] {
      assert a + b == b;
    } else {
      var ab := a + b;
      assert ab[0] == a[0] && ab[1..] == a[1..] + b;
      RemoveAppend(a[1..], b, name);
      if EqualsIgnoreCase(a[0].0, name) {
        assert Remove(ab, name) == Remove(a[1..] + b, name);
      } else {
        assert Remove(ab, name) == [a[0]] + Remove(a[1..] + b, name);
        assert [a[0]] + (Remove(a[1..], name) + Remove(b, name)) == ([a[0]] + Remove(a[1..], name)) + Remove(b, name);
      }
    }
  }

  /** The header name is none of the listed names. */
  predicate Unlisted(n: string, names: seq<string>)
  {
    forall j :: 0 <= j < |names| ==> !EqualsIgnoreCase(n, names[j])
  }

  /** Removes each listed name in turn. */
  function RemoveAll(h: Headers, names: seq<string>): (r: Headers)
    ensures forall p :: p in r <==> p in h && Unlisted(p.0, names)
  {
    if names == [] then h else Remove(RemoveAll(h, names[..|names| - 1]), names[|names| - 1])
  }

  /** None of the listed names survives, and every other entry keeps all its copies. */
  lemma {:induction false} RemoveAllCounts(h: Headers, names: seq<string>)
    ensures forall p :: multiset(RemoveAll(h, names))[p] == if Unlisted(p.0, names) then multiset(h)[p] else 0
  {
    if names != [] {
      var init, last := names[..|names| - 1], names[|names| - 1];
      RemoveAllCounts(h, init);
      RemoveCounts(RemoveAll(h, init), last);
      forall n: string ensures Unlisted(n, names) <==> Unlisted(n, init) && !EqualsIgnoreCase(n, last) {
        assert forall j :: 0 <= j < |init| ==> init[j] == names[j];
      }
    }
  }

  /** Removing several names also keeps the surviving entries in order. */
  lemma {:induction false} RemoveAllAppend(a: Headers, b: Headers, names: seq<string>)
    ensures RemoveAll(a + b, names) == RemoveAll(a, names) + RemoveAll(b, names)
  {
    if names != [] {
      var init := names[..|names| - 1];
      RemoveAllAppend(a, b, init);
      RemoveAppend(RemoveAll(a, init), RemoveAll(b, init), names[|names| - 1]);
    }
  }

  /** Position of the first entry with that name, or `|h|` when there is none. */
  function FirstIndex(h: Headers, name: string): (i: nat)
    ensures i <= |h|
    ensures i < |h| ==> EqualsIgnoreCase(h[i].0, name)
    ensures forall j :: 0 <= j < i ==> !EqualsIgnoreCase(h[j].0, name)
  {
    if h == [] then 0
    else if EqualsIgnoreCase(h[0].0, name) then 0
    else 1 + FirstIndex(h[1..], name)
  }

  /** `headers.get(name)`: the value of the first entry with that name, which `getlist` lists first. */
  function GetFirst(h: Headers, name: string): (r: Option<string>)
    ensures r.Some? <==> exists i :: 0 <= i < |h| && EqualsIgnoreCase(h[i].0, name)
    ensures r.Some? <==> GetList(h, name) != []
    ensures r.Some? ==> r.value == GetList(h, name)[0]
  {
    var i := FirstIndex(h, name);
    if i < |h| then Some(h[i].1) else None
  }

  /** `headers.getlist(name)`: the values of all entries with that name, in order. */
  function GetList(h: Headers, name: string): (r: seq<string>)
    ensures |r| <= |h|
    ensures r == [] <==> FirstIndex(h, name) == |h|
    ensures r != [] ==> r[0] == h[FirstIndex(h, name)].1
  {
    if h == [] then []
    else if EqualsIgnoreCase(h[0].0, name) then [h[0].1] + GetList(h[1..], name)
    else GetList(h[1..], name)
  }

  /** Looking a header up under two spellings of one name finds the same entry. */
  lemma {:induction false} FirstIndexIgnoresCase(h: Headers, a: string, b: string)
    requires EqualsIgnoreCase(a, b)
    ensures FirstIndex(h, a) == FirstIndex(h, b)
  {
    if h != [] {
      FirstIndexIgnoresCase(h[1..], a, b);
    }
  }
}
