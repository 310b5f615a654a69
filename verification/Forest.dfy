/** Several trees in one page store. */
module Forest {
  import opened Storage
  import opened Shape
  import opened Contexts
  import opened Contents

  ghost predicate Apart(f: multiset<PageNo>, g: multiset<PageNo>) {
    forall p :: p in f ==> p !in g
  }

  /** A write to one tree leaves every other tree as it was, and takes none of its pages. */
  lemma OthersUntouched(m: map<PageNo, Page>, m': map<PageNo, Page>, f: multiset<PageNo>, f': multiset<PageNo>,
                        lost: multiset<PageNo>, u: Tree, h: nat, d: Discipline)
    requires Rewritten(m, m', f, f', lost) && Stored(m, u, h, d) && Apart(f, Footprint(u))
    ensures Stored(m', u, h, d) && Apart(f', Footprint(u)) && Apart(lost, Footprint(u))
  {
    hide Held, Sound, RootFilled, Footprint;
    HeldLive(m, u);
    HeldFrame(m, m', u);
  }

  /** Pages given back by one write are pages of the tree that was written, and of no tree afterwards. */
  lemma FreedWereOurs(m: map<PageNo, Page>, m': map<PageNo, Page>, f: multiset<PageNo>, f': multiset<PageNo>,
                      lost: multiset<PageNo>, p: PageNo)
    requires Rewritten(m, m', f, f', lost) && p in m && p !in m'
    ensures p in f && p !in f' && p !in lost
  {
  }

  // ----- Entries that a discipline does not allow

  /** The discipline `d'` asks for no more than `d`. */
  ghost predicate Weaker(d: Discipline, d': Discipline) {
    || d' == d || d'.AnyKeys?
    || (d'.ShortKeys? && d.FixedWidth? && d.keyLen <= MAX_SHORT_KEY
        && (d'.small ==> 6 + d.keyLen + d.payloadLen <= MAX_SMALL_ENTRY))
    || (d'.ShortKeys? && d.ShortKeys? && (d'.small ==> d.small))
  }

  /** What is still known of a tree that takes an entry its discipline does not allow. */
  ghost function Loosened(d: Discipline, e: LeafEntry): (d': Discipline)
    ensures EntryOk(d', e) && (Roomy(d) ==> Roomy(d') && Weaker(d, d'))
  {
    if EntryOk(d, e) then d
    else if d.AnyKeys? || |e.key| > MAX_SHORT_KEY then AnyKeys
    else
      ShortKeys(&& d.FixedWidth? && 6 + d.keyLen + d.payloadLen <= MAX_SMALL_ENTRY
                && 6 + |e.key| + |e.payload| <= MAX_SMALL_ENTRY)
  }

  /** A tree under a discipline is a tree under every weaker one. */
  lemma {:induction false} LoosenedFilled(t: Tree, d: Discipline, d': Discipline, least: nat, least': nat)
    requires Filled(t, d, least) && Weaker(d, d') && least' <= least
    ensures Filled(t, d', least')
    decreases t
  {
    if t.Branch? {
      LoosenedFilledAll(t.kids, d, d');
    }
  }

  lemma {:induction false} LoosenedFilledAll(kids: seq<Tree>, d: Discipline, d': Discipline)
    requires FilledAll(kids, d) && Weaker(d, d')
    ensures FilledAll(kids, d')
    decreases kids
  {
    if kids != [] {
      LoosenedFilled(kids[0], d, d', MinFill(d), MinFill(d'));
      LoosenedFilledAll(kids[1..], d, d');
    }
  }

  lemma LoosenedStored(m: map<PageNo, Page>, t: Tree, h: nat, d: Discipline, d': Discipline)
    requires Stored(m, t, h, d) && Weaker(d, d')
    ensures Stored(m, t, h, d')
  {
    hide Held, Sound, NoRepeats, Filled;
    LoosenedFilled(t, d, d', RootFill(t, d), RootFill(t, d'));
  }

  /** Entries on a page. */
  ghost function CountOn(page: Page): nat {
    match page
    case Blank => 0
    case LeafPage(es, _) => |es|
    case InternalPage(seps, _) => |seps|
  }

  /** Every page of a tree, but the one of the root, has as many entries as the discipline promises. */
  lemma {:induction false} MinimumKept(m: map<PageNo, Page>, t: Tree, least: nat, d: Discipline)
    requires Held(m, t) && Filled(t, d, least)
    ensures forall p :: p in Footprint(t) ==> p in m && CountOn(m[p]) >= if p == t.p then least else MinFill(d)
    decreases t
  {
    if t.Branch? {
      MinimumKeptAll(m, t.kids, d);
    }
  }

  lemma {:induction false} MinimumKeptAll(m: map<PageNo, Page>, kids: seq<Tree>, d: Discipline)
    requires HeldAll(m, kids) && FilledAll(kids, d)
    ensures forall p :: p in FootprintAll(kids) ==> p in m && CountOn(m[p]) >= MinFill(d)
    decreases kids
  {
    if kids != [] {
      MinimumKept(m, kids[0], MinFill(d), d);
      MinimumKeptAll(m, kids[1..], d);
    }
  }
}
