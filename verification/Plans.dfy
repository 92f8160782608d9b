/** Plans, what they occupy, and the two narrowings of a repository-wide claim.

A plan names files, and inside a file either the whole of it (an empty symbol
set) or some of its symbols. A repository-wide ("blanket") plan names only an
estimate, and occupies every file its holder has not given back.
*/
module Plans {
  import opened Optional

  type TaskId = string
  type File = string
  type Symbol = string

  datatype Claim =
    | Ordinary
    | Blanket(released: set<File>)
    | Frozen
    | Declared(held: set<File>)

  datatype Plan = Plan(task: TaskId, scope: map<File, set<Symbol>>, claim: Claim)

  predicate IsBlanket(p: Plan) {
    p.claim.Blanket?
  }

  function Files(p: Plan): set<File> {
    p.scope.Keys
  }

  /** The plan reaches into this file at all. */
  predicate Touches(p: Plan, f: File) {
    if IsBlanket(p) then f !in p.claim.released else f in p.scope
  }

  /** The plan reaches this symbol of this file. */
  predicate Covers(p: Plan, f: File, s: Symbol) {
    Touches(p, f) && (IsBlanket(p) || p.scope[f] == {} || s in p.scope[f])
  }

  /** No symbol of any file is reached by both. */
  ghost predicate Compatible(p: Plan, q: Plan) {
    forall f, s :: !(Covers(p, f, s) && Covers(q, f, s))
  }

  /** Everything `p` reaches, `q` reaches too; a narrowing never becomes repository-wide again. */
  ghost predicate Narrows(p: Plan, q: Plan) {
    && (forall f, s :: Covers(p, f, s) ==> Covers(q, f, s))
    && (IsBlanket(p) ==> IsBlanket(q))
  }

  /** What a claim, as opposed to declarations, holds whole. */
  predicate ClaimOccupies(p: Plan, f: File) {
    match p.claim
    case Ordinary => false
    case Blanket(released) => f !in released
    case Frozen => f in p.scope
    case Declared(held) => f in held
  }

  lemma NarrowsTransitive(p: Plan, q: Plan, r: Plan)
    requires Narrows(p, q) && Narrows(q, r)
    ensures Narrows(p, r)
  {
  }

  /** Compatibility survives narrowing either side. */
  lemma CompatibleUnderNarrowing(p: Plan, q: Plan, p': Plan, q': Plan)
    requires Compatible(p, q) && Narrows(p', p) && Narrows(q', q)
    ensures Compatible(p', q') && Compatible(q', p')
  {
    forall f, s ensures !(Covers(p', f, s) && Covers(q', f, s)) {
      assert !(Covers(p, f, s) && Covers(q, f, s));
    }
  }

  /** A plan that touches a file reaches some symbol of it. */
  ghost function ReachedSymbol(p: Plan, f: File): (s: Symbol)
    requires Touches(p, f)
    ensures Covers(p, f, s)
  {
    if IsBlanket(p) || p.scope[f] == {} then "" else var s :| s in p.scope[f]; s
  }

  predicate HoldsWhole(p: Plan, f: File) {
    Touches(p, f) && (IsBlanket(p) || p.scope[f] == {})
  }

  /** A plan compatible with one that holds a file whole stays out of that file. */
  lemma WholeFilesAreExclusive(p: Plan, q: Plan, f: File)
    requires Compatible(p, q) && HoldsWhole(q, f)
    ensures !Touches(p, f)
  {
    var s := if Touches(p, f) then ReachedSymbol(p, f) else "";
    assert Covers(q, f, s);
  }

  /** The repository-wide plan, carrying the estimate it was granted against. */
  function BlanketPlan(task: TaskId, estimate: set<File>): Plan {
    Plan(task, map f | f in estimate :: {}, Blanket({}))
  }

  /** Narrowing from behaviour: the plan's files and the changed ones, each held whole. */
  function Freeze(p: Plan, changed: set<File>): Plan {
    Plan(p.task, map f | f in Files(p) + changed :: {}, Frozen)
  }

  /** The plan a claim becomes once its holder has said what the rest of its work needs. */
  function DeclaredPlan(p: Plan, said: set<File>, symbols: set<Symbol>, observed: set<File>): Option<Plan> {
    if !IsBlanket(p) || said == {} || symbols == {} then
      None
    else
      var held := observed - said;
      Some(Plan(p.task,
                map f | f in said + observed + Files(p) :: if f in held then {} else symbols,
                Declared(held)))
  }

  /** A freeze occupies exactly the named and the changed files, whole. */
  lemma FreezeOccupies(p: Plan, changed: set<File>, f: File)
    ensures Touches(Freeze(p, changed), f) <==> f in Files(p) + changed
    ensures HoldsWhole(Freeze(p, changed), f) <==> f in Files(p) + changed
    ensures ClaimOccupies(Freeze(p, changed), f) <==> f in Files(p) + changed
  {
  }

  /** A conversion holds as a claim just the files its holder was seen in and did not name; those whole, and
      the rest of it by symbol. */
  lemma DeclaredOccupies(p: Plan, said: set<File>, symbols: set<Symbol>, observed: set<File>, f: File)
    requires DeclaredPlan(p, said, symbols, observed).Some?
    ensures var d := DeclaredPlan(p, said, symbols, observed).value;
            && (Touches(d, f) <==> f in said || f in observed || f in Files(p))
            && (ClaimOccupies(d, f) <==> f in observed && f !in said)
            && (HoldsWhole(d, f) <==> f in observed && f !in said)
            && (Touches(d, f) && !HoldsWhole(d, f) ==> d.scope[f] == symbols)
  {
  }

  /** Symbols run out of no finite set. */
  lemma FreshSymbol(used: set<Symbol>) returns (s: Symbol)
    ensures forall u :: u in used ==> |u| < |s|
    decreases used
  {
    if used == {} {
      s := "";
    } else {
      var x :| x in used;
      var t := FreshSymbol(used - {x});
      s := if |t| > |x| then t else x + " ";
    }
  }

  /** In this file `q` leaves room for whatever `p` names. */
  predicate HasRoomFor(q: Plan, p: Plan, f: File)
    requires f in p.scope
  {
    Touches(q, f) && (IsBlanket(q) || q.scope[f] == {} || (p.scope[f] != {} && p.scope[f] <= q.scope[f]))
  }

  /** A plan narrows another exactly when there is room in that one for every file it names. */
  lemma NarrowsIff(p: Plan, q: Plan)
    requires !IsBlanket(p)
    ensures Narrows(p, q) <==> forall f :: f in Files(p) ==> HasRoomFor(q, p, f)
  {
    if f :| f in Files(p) && !HasRoomFor(q, p, f) {
      var s := ReachedSymbol(p, f);
      if Touches(q, f) && Covers(q, f, s) {
        s := FreshSymbol(q.scope[f]);
        if p.scope[f] != {} {
          s :| s in p.scope[f] && s !in q.scope[f];
        }
      }
      assert Covers(p, f, s) && !Covers(q, f, s);
    }
  }

  /** An ordinary plan narrows a repository-wide claim exactly when it names nothing given back. */
  lemma NarrowsClaimIff(p: Plan, claim: Plan)
    requires IsBlanket(claim) && !IsBlanket(p)
    ensures Narrows(p, claim) <==> Files(p) !! claim.claim.released
  {
    if f :| f in Files(p) && f in claim.claim.released {
      var s := ReachedSymbol(p, f);
      assert Covers(p, f, s) && !Covers(claim, f, s);
    }
  }

  /** So a freeze narrows a claim exactly when nothing it keeps was given back. */
  lemma FreezeNarrowsIff(p: Plan, changed: set<File>, claim: Plan)
    requires IsBlanket(claim)
    ensures Narrows(Freeze(p, changed), claim) <==> (Files(p) + changed) !! claim.claim.released
  {
    NarrowsClaimIff(Freeze(p, changed), claim);
  }

  /** Same for a declared conversion, which may also name files of its own. */
  lemma DeclaredNarrowsIff(p: Plan, said: set<File>, symbols: set<Symbol>, observed: set<File>, claim: Plan)
    requires DeclaredPlan(p, said, symbols, observed).Some? && IsBlanket(claim)
    ensures Narrows(DeclaredPlan(p, said, symbols, observed).value, claim)
            <==> (said + observed + Files(p)) !! claim.claim.released
  {
    var d := DeclaredPlan(p, said, symbols, observed).value;
    assert Files(d) == said + observed + Files(p);
    NarrowsClaimIff(d, claim);
  }
}
