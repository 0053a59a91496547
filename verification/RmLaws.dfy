/**
 What rm -r may remove, said by the answers it was given: a node goes exactly
 when every directory above it was to be examined, its own removal was agreed
 to, and, for a directory, all its entries went before it; -f stands for
 agreement to everything.
 */
module RmLaws {
  import opened Common
  import opened FsTree
  import opened Subtrees
  import opened Fts
  import opened Rm
  import opened RmTree

  /** The tree of f whose top is n, with its later siblings; Nil if n is not there */
  function Top(f: Forest, n: Id): Forest {
    match f
    case Nil => Nil
    case File(id, _, rest) => if id == n then f else Top(rest, n)
    case Dir(id, _, kids, rest) =>
      if id == n then f else if n in Ids(kids) then Top(kids, n) else Top(rest, n)
  }

  /** The paths of the directories above n, outermost first, and of n itself */
  function Chain(f: Forest, path: string, n: Id): seq<string> {
    match f
    case Nil => []
    case File(id, name, rest) => if id == n then [Child(path, name)] else Chain(rest, path, n)
    case Dir(id, name, kids, rest) =>
      var p := Child(path, name);
      if id == n then [p] else if n in Ids(kids) then [p] + Chain(kids, p, n) else Chain(rest, path, n)
  }

  /** The user let rm into every directory on the way and agreed to the removal of the last. */
  ghost predicate Agreed(c: Client, chain: seq<string>, directory: bool) {
    c.force ||
    (&& chain != []
     && (forall i :: 0 <= i < |chain| - 1 ==> c.examine(chain[i]))
     && (directory ==> c.examine(chain[|chain| - 1])) && c.remove(chain[|chain| - 1]))
  }

  ghost predicate EntriesGo(t: Forest, R: set<Id>) {
    t.Dir? ==> forall m :: m in Heads(t.kids) ==> m in R
  }

  lemma {:induction false} TopIsThere(f: Forest, path: string, n: Id)
    requires n in Ids(f)
    ensures !Top(f, n).Nil? && Top(f, n).id == n && Chain(f, path, n) != []
    ensures Top(f, n).Dir? ==> forall m :: m in Heads(Top(f, n).kids) ==> m in Ids(f)
  {
    match f {
      case File(id, _, rest) => if id != n { TopIsThere(rest, path, n); }
      case Dir(id, name, kids, rest) =>
        if id == n {
          HeadsInIds(kids);
        } else if n in Ids(kids) {
          TopIsThere(kids, Child(path, name), n);
        } else {
          TopIsThere(rest, path, n);
        }
    }
  }

  /** Consent decides, node by node. */
  lemma {:induction false} GoesIff(f: Forest, path: string, c: Client, n: Id)
    requires Proper(f) && n in Ids(f)
    ensures n in Removed(f, path, c) <==>
            Agreed(c, Chain(f, path, n), Top(f, n).Dir?) && EntriesGo(Top(f, n), Removed(f, path, c))
    decreases f, 1
  {
    match f {
      case File(id, _, rest) =>
        RemovedWithin(rest, path, c);
        if id != n {
          GoesIff(rest, path, c, n);
          TopIsThere(rest, path, n);
          SameEntries(Top(rest, n), Removed(rest, path, c), Removed(f, path, c), Ids(rest));
        }
      case Dir(id, name, kids, rest) =>
        DirGoes(f, path, c, n);
    }
  }

  lemma SameEntries(t: Forest, R: set<Id>, R': set<Id>, ids: set<Id>)
    requires (t.Dir? ==> forall m :: m in Heads(t.kids) ==> m in ids)
    requires forall m :: m in ids ==> (m in R <==> m in R')
    ensures EntriesGo(t, R) == EntriesGo(t, R')
  {
  }

  lemma {:induction false} DirGoes(f: Forest, path: string, c: Client, n: Id)
    requires f.Dir? && Proper(f) && n in Ids(f)
    ensures n in Removed(f, path, c) <==>
            Agreed(c, Chain(f, path, n), Top(f, n).Dir?) && EntriesGo(Top(f, n), Removed(f, path, c))
    decreases f, 0
  {
    var p, R := Child(path, f.name), Removed(f, path, c);
    RemovedWithin(f.kids, p, c);
    RemovedWithin(f.rest, path, c);
    HeadsInIds(f.kids);
    if n == f.id {
      OwnAgreement(c, p);
      SameEntries(f, if Examines(c, p) then Removed(f.kids, p, c) else {}, R, Ids(f.kids));
    } else if n in Ids(f.kids) {
      GoesIff(f.kids, p, c, n);
      TopIsThere(f.kids, p, n);
      AgreementBelow(c, p, Chain(f.kids, p, n), Top(f.kids, n).Dir?);
      if Examines(c, p) {
        SameEntries(Top(f.kids, n), Removed(f.kids, p, c), R, Ids(f.kids));
      }
    } else {
      GoesIff(f.rest, path, c, n);
      TopIsThere(f.rest, path, n);
      SameEntries(Top(f.rest, n), Removed(f.rest, path, c), R, Ids(f.rest));
    }
  }

  lemma OwnAgreement(c: Client, p: string)
    ensures Agreed(c, [p], true) <==> Examines(c, p) && Removes(c, p)
  {
  }

  lemma AgreementBelow(c: Client, p: string, chain: seq<string>, directory: bool)
    requires chain != []
    ensures Agreed(c, [p] + chain, directory) <==> Examines(c, p) && Agreed(c, chain, directory)
  {
    var all := [p] + chain;
    assert all[|all| - 1] == chain[|chain| - 1];
    assert forall i :: 0 <= i < |chain| ==> all[i + 1] == chain[i];
    if Agreed(c, all, directory) && !c.force {
      assert all[0] == p;
    }
  }

  // ----- An argument of rm -------------------------------------------------------------------

  /** The paths from the argument down to n */
  function ArgumentChain(f: Forest, text: string, n: Id): seq<string>
    requires !f.Nil?
  {
    if f.id == n || f.File? then [text] else [text] + Chain(f.kids, text, n)
  }

  function ArgumentTop(f: Forest, n: Id): Forest
    requires !f.Nil?
  {
    if f.id == n || f.File? then f else Top(f.kids, n)
  }

  lemma ArgumentGoesIff(f: Forest, text: string, c: Client, n: Id)
    requires !f.Nil? && f.rest.Nil? && Proper(f) && n in Ids(f)
    ensures n in TreeRemoved(f, text, c) <==>
            && Agreed(c, ArgumentChain(f, text, n), ArgumentTop(f, n).Dir?)
            && EntriesGo(ArgumentTop(f, n), TreeRemoved(f, text, c))
  {
    if f.Dir? {
      var R := TreeRemoved(f, text, c);
      RemovedWithin(f.kids, text, c);
      HeadsInIds(f.kids);
      if n == f.id {
        OwnAgreement(c, text);
        SameEntries(f, if Examines(c, text) then Removed(f.kids, text, c) else {}, R, Ids(f.kids));
      } else {
        GoesIff(f.kids, text, c, n);
        TopIsThere(f.kids, text, n);
        AgreementBelow(c, text, Chain(f.kids, text, n), Top(f.kids, n).Dir?);
        if Examines(c, text) {
          SameEntries(Top(f.kids, n), Removed(f.kids, text, c), R, Ids(f.kids));
        }
      }
    }
  }

  /** A whole run of rm -r on one argument removes exactly the nodes that the answers let go, and no others. */
  lemma RmObeysAnswers(s: Fs, cwd: Id, text: string, f: Forest, c: Client, k: nat) returns (R: set<Id>)
    requires Inv(s) && AllReady(s, cwd, [text], [f], c) && !f.Nil? && f.rest.Nil? && Proper(f)
    ensures Turns(s, cwd, Started([text]), c, |TreeVisits(f, text, 0, c)| + k).fs == Erase(s, R) && R <= Ids(f)
    ensures forall n :: n in Ids(f) ==>
              (n in R <==>
                 && Agreed(c, ArgumentChain(f, text, n), ArgumentTop(f, n).Dir?) && EntriesGo(ArgumentTop(f, n), R))
  {
    hide Inv, Turns, Erase, AllReady, Agreed, EntriesGo, ArgumentChain, ArgumentTop, TreeRemoved, TreeVisits, Proper,
         Ids;
    RmWalksAll(s, cwd, [text], [f], c, k);
    ExpectedOfOne(s, cwd, text, f, c);
    R := TreeRemoved(f, text, c);
    TreeWithin(f, text, c);
    forall n | n in Ids(f)
      ensures n in R <==>
              Agreed(c, ArgumentChain(f, text, n), ArgumentTop(f, n).Dir?) && EntriesGo(ArgumentTop(f, n), R)
    {
      ArgumentGoesIff(f, text, c, n);
    }
  }

  lemma TreeWithin(f: Forest, text: string, c: Client)
    requires !f.Nil?
    ensures TreeRemoved(f, text, c) <= Ids(f)
  {
    if f.Dir? { RemovedWithin(f.kids, text, c); }
  }

  lemma ExpectedOfOne(s: Fs, cwd: Id, text: string, f: Forest, c: Client)
    requires !f.Nil?
    ensures var r := Expected(s, cwd, [text], [f], c, Started([]));
      r.fs == Erase(s, TreeRemoved(f, text, c)) && r.visits == TreeVisits(f, text, 0, c)
  {
    hide Erase, TreeRemoved, TreeVisits, TreeFails;
    assert [text][1..] == [] && [f][1..] == [];
    assert TreeVisits(f, text, 0, c) + [] == TreeVisits(f, text, 0, c);
  }
}
