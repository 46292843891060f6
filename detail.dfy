/** Finding the book behind a click on the list: the event path is scanned node by
    node, and for each node the current matches are scanned for the node's
    `data-preview` id. */
module Detail {
  import opened Catalog

  /** One node of the event path: the value of its `data-preview` attribute, if any. */
  type PathNode = Option<string>

  /** The index of the first book whose id equals the node's id, or |matches| if none does. */
  function FirstWithId(matches: seq<Book>, node: PathNode): (k: nat)
    ensures k <= |matches|
    ensures forall j :: 0 <= j < k ==> node != Some(matches[j].id)
    ensures k < |matches| ==> node == Some(matches[k].id)
  {
    if matches == [] then 0
    else if node == Some(matches[0].id) then 0
    else 1 + FirstWithId(matches[1..], node)
  }

  /** The inner scan: the first book of matches carrying the node's id. */
  function FindById(matches: seq<Book>, node: PathNode): (r: Option<Book>)
    ensures r.Some? ==> r.value in matches && node == Some(r.value.id)
    ensures r.None? <==> forall b :: b in matches ==> node != Some(b.id)
  {
    var k := FirstWithId(matches, node);
    if k < |matches| then Some(matches[k]) else None
  }

  /** The outer scan: the first path node that names a book of matches decides. */
  function Lookup(path: seq<PathNode>, matches: seq<Book>): Option<Book> {
    if path == [] then None
    else match FindById(matches, path[0])
      case Some(b) => Some(b)
      case None => Lookup(path[1..], matches)
  }

  /** The index of the first path node whose id some book carries, or |path| if none. */
  function FirstHit(path: seq<PathNode>, matches: seq<Book>): (n: nat)
    ensures n <= |path|
    ensures forall m :: 0 <= m < n ==> FindById(matches, path[m]) == None
    ensures n < |path| ==> FindById(matches, path[n]) != None
  {
    if path == [] then 0
    else if FindById(matches, path[0]) != None then 0
    else 1 + FirstHit(path[1..], matches)
  }

  /** The lookup selects, at the first path node with a hit, the first book of matches
      with that node's id; it finds nothing exactly when no node names any book. */
  lemma {:induction false} LookupIsFirstHit(path: seq<PathNode>, matches: seq<Book>)
    ensures var n := FirstHit(path, matches);
      Lookup(path, matches) == if n < |path| then FindById(matches, path[n]) else None
  {
    if path != [] && FindById(matches, path[0]) == None {
      LookupIsFirstHit(path[1..], matches);
    }
  }

  /** A found book is one of the matches, and carries the id of a node on the path. */
  lemma LookupFound(path: seq<PathNode>, matches: seq<Book>)
    requires Lookup(path, matches).Some?
    ensures Lookup(path, matches).value in matches
    ensures Some(Lookup(path, matches).value.id) in path
  {
    LookupIsFirstHit(path, matches);
  }

  /** The click handler's two nested loops with their breaks. */
  method FindActive(path: seq<PathNode>, matches: seq<Book>) returns (active: Option<Book>)
    ensures active == Lookup(path, matches)
  {
    active := None;
    var n := 0;
    while n < |path|
      invariant 0 <= n <= |path|
      invariant active.Some? ==> active == Lookup(path, matches)
      invariant active.None? ==> Lookup(path, matches) == Lookup(path[n..], matches)
    {
      if active.Some? {
        break;
      }
      var previewId := path[n];
      var k := 0;
      while k < |matches|
        invariant 0 <= k <= |matches|
        invariant forall j :: 0 <= j < k ==> previewId != Some(matches[j].id)
        invariant active == None
      {
        if Some(matches[k].id) == previewId {
          active := Some(matches[k]);
          break;
        }
        k := k + 1;
      }
      assert active == FindById(matches, previewId);
      assert path[n..][1..] == path[n + 1..];
      n := n + 1;
    }
  }
}
