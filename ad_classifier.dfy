/**
 * The v1.3 ad classifier over a page: elements are records held in a sequence and
 * linked to their parents by index; the only attribute the classifier writes is the
 * `data-is-ad` marker, modelled by the `marked` flag.
 */
module AdClassifier {
  import opened Wrappers
  import opened AdRules
  import opened Text

  /** How many nodes the marker walk visits at most: the element and 4 ancestors. */
  const MARKER_DEPTH: nat := 5

  /**
   * One DOM element: its tag name ("" for a node without one), class, id, the `href`
   * of a link, the `src` of a frame, whether it carries `data-is-ad`, and its parent.
   */
  datatype Node = Node(
    tag: string,
    className: string,
    id: string,
    href: string,
    src: string,
    marked: bool,
    parent: Option<nat>)

  /** Every parent reference points at an element of the page. */
  predicate WellFormed(nodes: seq<Node>) {
    forall i :: 0 <= i < |nodes| && nodes[i].parent.Some? ==> nodes[i].parent.value < |nodes|
  }

  /** A possibly-null element reference that, when present, names an element of the page. */
  predicate Within(nodes: seq<Node>, ref: Option<nat>) {
    ref.Some? ==> ref.value < |nodes|
  }

  /** The same page with element `e` carrying the marker. */
  function Mark(nodes: seq<Node>, e: nat): (r: seq<Node>)
    requires e < |nodes|
    ensures |r| == |nodes| && r[e].marked
    ensures forall i :: 0 <= i < |nodes| && i != e ==> r[i] == nodes[i]
    ensures r[e] == nodes[e].(marked := true)
  {
    nodes[e := nodes[e].(marked := true)]
  }

  /**
   * The walk of the source's `while` loop: starting at `cur`, visit at most `fuel`
   * nodes, stopping at a null parent or at `body`, and report a marker on any of them.
   */
  function MarkerWithin(nodes: seq<Node>, body: Option<nat>, cur: Option<nat>, fuel: nat): bool
    requires WellFormed(nodes) && Within(nodes, cur)
    decreases fuel
  {
    cur.Some? && cur != body && fuel > 0
    && (nodes[cur.value].marked || MarkerWithin(nodes, body, nodes[cur.value].parent, fuel - 1))
  }

  /** The `k`-th ancestor of `e` (`e` itself for `k == 0`), or `None` past the root. */
  function Ancestor(nodes: seq<Node>, e: nat, k: nat): (r: Option<nat>)
    requires WellFormed(nodes) && e < |nodes|
    ensures Within(nodes, r)
    decreases k
  {
    if k == 0 then Some(e)
    else match nodes[e].parent
      case None => None
      case Some(p) => Ancestor(nodes, p, k - 1)
  }

  /** The walk from `e` gets as far as the `k`-th ancestor without meeting null or `body`. */
  ghost predicate Reaches(nodes: seq<Node>, body: Option<nat>, e: nat, k: nat)
    requires WellFormed(nodes) && e < |nodes|
  {
    forall j :: 0 <= j <= k ==> Ancestor(nodes, e, j).Some? && Ancestor(nodes, e, j) != body
  }

  /** The `k`-th ancestor of `e` exists and carries the marker. */
  ghost predicate MarkedAncestor(nodes: seq<Node>, e: nat, k: nat)
    requires WellFormed(nodes) && e < |nodes|
  {
    var a := Ancestor(nodes, e, k);
    a.Some? && nodes[a.value].marked
  }

  /**
   * The walk finds a marker exactly when one of the first `n` nodes of the ancestor
   * chain (the element counting as the first) carries it and the chain reaches that
   * node without passing `body`.
   */
  lemma {:induction false} MarkerWithinIff(nodes: seq<Node>, body: Option<nat>, e: nat, n: nat)
    requires WellFormed(nodes) && e < |nodes|
    ensures MarkerWithin(nodes, body, Some(e), n)
        <==> exists k :: 0 <= k < n && Reaches(nodes, body, e, k) && MarkedAncestor(nodes, e, k)
    decreases n
  {
    assert Ancestor(nodes, e, 0) == Some(e);
    if n == 0 || Some(e) == body {
      forall k | 0 <= k < n && Reaches(nodes, body, e, k) ensures false {
      }
    } else {
      match nodes[e].parent {
        case None =>
          assert Reaches(nodes, body, e, 0) && (MarkedAncestor(nodes, e, 0) <==> nodes[e].marked);
          forall k | 1 <= k ensures !Reaches(nodes, body, e, k) {
            assert Ancestor(nodes, e, 1) == None;
          }
        case Some(p) =>
          MarkerWithinIff(nodes, body, p, n - 1);
          assert Reaches(nodes, body, e, 0) && (MarkedAncestor(nodes, e, 0) <==> nodes[e].marked);
          forall k | 0 <= k < n - 1
            ensures Reaches(nodes, body, e, k + 1) <==> Reaches(nodes, body, p, k)
            ensures MarkedAncestor(nodes, e, k + 1) <==> MarkedAncestor(nodes, p, k)
          {
            assert Ancestor(nodes, e, k + 1) == Ancestor(nodes, p, k);
            forall j | 0 <= j <= k ensures Ancestor(nodes, e, j + 1) == Ancestor(nodes, p, j) {
            }
            if Reaches(nodes, body, p, k) {
              forall j | 0 <= j <= k + 1
                ensures Ancestor(nodes, e, j).Some? && Ancestor(nodes, e, j) != body
              {
                if j > 0 {
                  assert Ancestor(nodes, e, j) == Ancestor(nodes, p, j - 1);
                }
              }
            }
          }
          if MarkerWithin(nodes, body, Some(p), n - 1) {
            var k :| 0 <= k < n - 1 && Reaches(nodes, body, p, k) && MarkedAncestor(nodes, p, k);
            assert Reaches(nodes, body, e, k + 1) && MarkedAncestor(nodes, e, k + 1);
          }
          forall k | 1 <= k < n && Reaches(nodes, body, e, k) && MarkedAncestor(nodes, e, k)
            ensures MarkerWithin(nodes, body, Some(p), n - 1)
          {
            assert Reaches(nodes, body, p, k - 1) && MarkedAncestor(nodes, p, k - 1);
          }
      }
    }
  }

  /** Which rule of `isAdElement` decided, in the source's order. */
  datatype Verdict =
    | NotAd
    | MarkerFound     // the element or an ancestor within reach already carries the marker
    | AdLink          // an `A` element whose href is an ad URL
    | AdKeyword       // an ad keyword stands as a whole word in the class or id
  {
    predicate IsAd() {
      this != NotAd
    }

    /** The verdicts after which the source marks the element. */
    predicate Marks() {
      this == AdLink || this == AdKeyword
    }
  }

  /** The decision `isAdElement` reaches for `target` on the page as it stands. */
  function Classify(nodes: seq<Node>, body: Option<nat>, target: Option<nat>): Verdict
    requires WellFormed(nodes) && Within(nodes, target)
  {
    match target
    case None => NotAd
    case Some(e) =>
      var n := nodes[e];
      if n.tag == [] then NotAd
      else if n.marked || MarkerWithin(nodes, body, target, MARKER_DEPTH) then MarkerFound
      else if n.tag == "A" && IsAdUrl(n.href) then AdLink
      else if HasAdKeywords(n.className, n.id) then AdKeyword
      else NotAd
  }

  /** The page after `isAdElement` has decided `v` about `target`. */
  function Annotate(nodes: seq<Node>, target: Option<nat>, v: Verdict): seq<Node>
    requires Within(nodes, target)
  {
    if v.Marks() && target.Some? then Mark(nodes, target.value) else nodes
  }

  /**
   * Rules 3 and 4 look only at the element itself: when neither it nor its reachable
   * ancestors carry the marker, the verdict is a function of the element's own tag,
   * href, class and id (its src, its parent and the rest of the page do not matter).
   */
  lemma {:induction false} OwnAttributesDecide(
    nodes: seq<Node>, body: Option<nat>, e: nat,
    nodes': seq<Node>, body': Option<nat>, e': nat)
    requires WellFormed(nodes) && e < |nodes| && WellFormed(nodes') && e' < |nodes'|
    requires !MarkerWithin(nodes, body, Some(e), MARKER_DEPTH) && !nodes[e].marked
    requires !MarkerWithin(nodes', body', Some(e'), MARKER_DEPTH) && !nodes'[e'].marked
    requires nodes[e].tag == nodes'[e'].tag && nodes[e].href == nodes'[e'].href
    requires nodes[e].className == nodes'[e'].className && nodes[e].id == nodes'[e'].id
    ensures Classify(nodes, body, Some(e)) == Classify(nodes', body', Some(e'))
  {
  }

  /**
   * Classifying twice gives the same answer: after the first call the element is an ad
   * exactly when it was one before, and the second call marks nothing more.
   */
  lemma Idempotent(nodes: seq<Node>, body: Option<nat>, target: Option<nat>)
    requires WellFormed(nodes) && Within(nodes, target)
    ensures var v := Classify(nodes, body, target);
            var after := Annotate(nodes, target, v);
            WellFormed(after)
            && Classify(after, body, target).IsAd() == v.IsAd()
            && !Classify(after, body, target).Marks()
            && Annotate(after, target, Classify(after, body, target)) == after
  {
  }

  /** Adding markers never turns an ad into a non-ad. */
  predicate MoreMarked(nodes: seq<Node>, nodes': seq<Node>) {
    |nodes| == |nodes'|
    && forall i :: 0 <= i < |nodes| ==>
         nodes'[i] == nodes[i].(marked := nodes'[i].marked) && (nodes[i].marked ==> nodes'[i].marked)
  }

  lemma {:induction false} MarkerWithinMonotone(
    nodes: seq<Node>, nodes': seq<Node>, body: Option<nat>, cur: Option<nat>, fuel: nat)
    requires WellFormed(nodes) && Within(nodes, cur) && MoreMarked(nodes, nodes')
    ensures WellFormed(nodes')
    ensures MarkerWithin(nodes, body, cur, fuel) ==> MarkerWithin(nodes', body, cur, fuel)
    decreases fuel
  {
    assert forall i :: 0 <= i < |nodes| ==> nodes'[i].parent == nodes[i].parent;
    if cur.Some? && cur != body && fuel > 0 {
      MarkerWithinMonotone(nodes, nodes', body, nodes[cur.value].parent, fuel - 1);
    }
  }

  lemma ClassifyMonotone(nodes: seq<Node>, nodes': seq<Node>, body: Option<nat>, target: Option<nat>)
    requires WellFormed(nodes) && Within(nodes, target) && MoreMarked(nodes, nodes')
    ensures WellFormed(nodes')
    ensures Classify(nodes, body, target).IsAd() ==> Classify(nodes', body, target).IsAd()
  {
    MarkerWithinMonotone(nodes, nodes', body, target, MARKER_DEPTH);
  }

  /** `isAdElement` only ever adds the marker, so the page it leaves is `MoreMarked`. */
  lemma AnnotateMoreMarked(nodes: seq<Node>, body: Option<nat>, target: Option<nat>)
    requires WellFormed(nodes) && Within(nodes, target)
    ensures MoreMarked(nodes, Annotate(nodes, target, Classify(nodes, body, target)))
  {
  }

  /** An anchor whose href names doubleclick is an ad, whatever its class and id. */
  lemma DoubleclickAnchorIsAd(nodes: seq<Node>, body: Option<nat>, e: nat)
    requires WellFormed(nodes) && e < |nodes|
    requires nodes[e].tag == "A" && Contains(Lower(nodes[e].href), "doubleclick")
    ensures Classify(nodes, body, Some(e)).IsAd()
  {
    DoubleclickIsAdUrl(nodes[e].href);
  }

  /** Which attribute a detection pass reads its URL from. */
  datatype UrlAttribute = Href | Src

  function UrlOf(n: Node, attribute: UrlAttribute): string {
    match attribute
    case Href => n.href
    case Src => n.src
  }

  /** What a detection pass over elements named `tag` does to one element. */
  function MarkByUrl(n: Node, tag: string, attribute: UrlAttribute): (r: Node)
    ensures r.marked <==> n.marked || (n.tag == tag && IsAdUrl(UrlOf(n, attribute)))
    ensures r.(marked := n.marked) == n
  {
    if n.tag == tag && IsAdUrl(UrlOf(n, attribute)) then n.(marked := true) else n
  }

  /** A detection pass only ever adds the marker, so the page it leaves is `MoreMarked`. */
  lemma MarkByUrlMoreMarked(nodes: seq<Node>, nodes': seq<Node>, tag: string, attribute: UrlAttribute)
    requires |nodes'| == |nodes|
    requires forall i :: 0 <= i < |nodes| ==> nodes'[i] == MarkByUrl(nodes[i], tag, attribute)
    ensures MoreMarked(nodes, nodes')
  {
  }

  /** The page as the browser's `document`: its elements and `document.body`. */
  class Page {
    var nodes: seq<Node>
    const body: Option<nat>

    ghost predicate Valid()
      reads this
    {
      WellFormed(nodes)
    }

    constructor (nodes: seq<Node>, body: Option<nat>)
      requires WellFormed(nodes)
      ensures Valid() && this.nodes == nodes && this.body == body
    {
      this.nodes := nodes;
      this.body := body;
    }

    /** `element.setAttribute('data-is-ad', 'true')` */
    method SetMarker(e: nat)
      requires Valid() && e < |nodes|
      modifies this
      ensures Valid() && nodes == Mark(old(nodes), e)
    {
      nodes := nodes[e := nodes[e].(marked := true)];
    }
  }
}
