/** An env as three layers, what it shows, and each filesystem operation as a change of the layers. */
module OverlayState {
  import opened Replies
  import opened Trees
  import opened PlainTree
  import opened WhiteoutStore

  /** Where writing through a link of the upper layer ends up. */
  datatype Landing = Inside(path: Path) | Outside | Refused

  /** What lies behind the layers' symbolic links. They may lead anywhere, so nothing is assumed of it. `beyond`
      has what is found at a path that leads through a link of the snapshot, `ends` what such a link itself leads
      to; `dead` are the snapshot's links that lead to nothing, and `leads` says whether a link of the upper layer
      leads to something. `landing` says where a write through a link of the upper layer goes. */
  datatype Links = Links(beyond: map<Path, Reply<Node>>, ends: map<Path, Node>, dead: set<Path>,
                         leads: (Tree, Path) -> bool, landing: (Tree, Path) -> Landing)

  /** `gone` is the set of paths that carry a whiteout. */
  datatype State = State(lower: Tree, upper: Tree, gone: set<Path>, links: Links)

  /** What the system call finds at a path of the snapshot. */
  function LowerStat(lower: Tree, links: Links, p: Path): Reply<Node> {
    StatThrough(lower, links.beyond, p)
  }

  /** `exists` at a path of the upper layer: it follows a link, so one that leads to nothing is not there. */
  predicate Exists(u: Tree, links: Links, p: Path) {
    p in u && (u[p].Link? ==> links.leads(u, p))
  }

  /** The same in the snapshot */
  function LowerFound(lower: Tree, links: Links, p: Path): Option<Node> {
    match LowerStat(lower, links, p)
    case Ok(n) => if p in lower && n.Link? && p in links.dead then None else Some(n)
    case Err(_) => None
  }

  /** What `resolve` finds at one path: a whiteout hides it, `upper` wins over `lower`. */
  function Found(s: State, p: Path): Option<Node> {
    if p in s.gone then None
    else if Exists(s.upper, s.links, p) then Some(s.upper[p])
    else LowerFound(s.lower, s.links, p)
  }

  /** What it finds where every link leads to something. */
  function Resolved(s: State, p: Path): Option<Node> {
    if p in s.gone then None
    else if p in s.upper then Some(s.upper[p])
    else
      match LowerStat(s.lower, s.links, p)
      case Ok(n) => Some(n)
      case Err(_) => None
  }

  /** Reached by walking from the root through visible directories. */
  predicate Visible(s: State, p: Path) {
    Resolved(s, p).Some? && (p.Child? ==> Visible(s, p.parent) && Resolved(s, p.parent).value.Dir?)
  }

  /** The tree the env sees, as long as every link it sees leads to something. */
  function View(s: State): Tree {
    map p | p in s.lower.Keys + s.upper.Keys + s.links.beyond.Keys && Visible(s, p) :: Resolved(s, p).value
  }

  /** Reached by walking through what `resolve` really finds. */
  predicate SeenAlong(s: State, p: Path) {
    Found(s, p).Some? && (p.Child? ==> SeenAlong(s, p.parent) && Found(s, p.parent).value.Dir?)
  }

  /** The tree the env sees, links that lead to nothing left out. */
  function Seen(s: State): Tree {
    map p | p in s.lower.Keys + s.upper.Keys + s.links.beyond.Keys && SeenAlong(s, p) :: Found(s, p).value
  }

  lemma VisibleIsViewed(s: State, p: Path)
    ensures p in View(s) <==> Visible(s, p)
    ensures p in View(s) ==> View(s)[p] == Resolved(s, p).value
  {
  }

  /** What the layers hold at one path themselves, nothing from behind a link. */
  function Show(s: State, p: Path): Option<Node> {
    if p in s.gone then None
    else if p in s.upper then Some(s.upper[p])
    else Get(s.lower, p)
  }

  /** A whited-out path has no upper node; wherever a whiteout or an upper non-directory covers a lower
      directory, all its lower children are whited out too, so nothing shines through later; and no upper
      directory covers a lower link, so nothing shines through from behind it. */
  ghost predicate Inv(s: State) {
    && WellFormed(s.lower) && WellFormed(s.upper)
    && Root !in s.gone
    && (forall p :: p in s.gone ==> p !in s.upper)
    && (forall c :: c in s.lower && c.Child? && (c.parent in s.gone || (c.parent in s.upper && !s.upper[c.parent].Dir?))
                    ==> c in s.gone)
    && (forall p :: p in s.lower && s.lower[p].Link? && p in s.upper ==> !s.upper[p].Dir?)
  }

  /** Under the invariant, looking at one path of the layers alone already gives what the walk from the root
      gives. */
  lemma {:induction false} ShownIsVisible(s: State, p: Path)
    requires Inv(s) && Show(s, p).Some?
    ensures Visible(s, p) && Resolved(s, p) == Show(s, p)
  {
    if p.Child? {
      assert p in s.upper || p in s.lower;
      ShownIsVisible(s, p.parent);
    }
  }

  /** Below a visible directory no lookup leaves the snapshot through a link. */
  lemma {:induction false} DirLeadsStraight(s: State, p: Path)
    requires Inv(s) && Visible(s, p) && Resolved(s, p).value.Dir?
    ensures !ThroughLink(s.lower, p) && (p in s.lower ==> !s.lower[p].Link?)
  {
    if p.Child? {
      DirLeadsStraight(s, p.parent);
    }
  }

  /** A path whose parent is a visible directory is looked up in the layers themselves. */
  lemma LookedUpStraight(s: State, p: Path)
    requires Inv(s) && (p.Child? ==> Visible(s, p.parent) && Resolved(s, p.parent).value.Dir?)
    ensures !ThroughLink(s.lower, p) && LowerStat(s.lower, s.links, p) == Stat(s.lower, p)
    ensures Resolved(s, p) == Show(s, p)
  {
    if p.Child? {
      DirLeadsStraight(s, p.parent);
    }
  }

  lemma ViewIsShowAt(s: State, p: Path)
    requires Inv(s)
    ensures Get(View(s), p) == Show(s, p)
    ensures p == Root ==> IsDir(View(s), p)
  {
    VisibleIsViewed(s, p);
    if Show(s, p).Some? {
      ShownIsVisible(s, p);
    } else if Visible(s, p) {
      LookedUpStraight(s, p);
    }
  }

  /** Whatever lies behind the links, the view is what the layers hold. */
  lemma ViewIsShow(s: State)
    requires Inv(s)
    ensures forall p :: Get(View(s), p) == Show(s, p)
    ensures WellFormed(View(s))
  {
    forall p ensures Get(View(s), p) == Show(s, p) {
      ViewIsShowAt(s, p);
    }
    ViewIsShowAt(s, Root);
    forall p | p in View(s) && p.Child? ensures IsDir(View(s), p.parent) {
      VisibleIsViewed(s, p);
      VisibleIsViewed(s, p.parent);
    }
  }

  /** Requests are made at paths whose parent is visible: these are looked up in the layers themselves. */
  lemma ViewedStraight(s: State, p: Path)
    requires Inv(s) && (p.Child? ==> IsDir(View(s), p.parent))
    ensures !ThroughLink(s.lower, p) && LowerStat(s.lower, s.links, p) == Stat(s.lower, p)
    ensures Resolved(s, p) == Show(s, p)
  {
    LookedUpStraight(s, p);
  }

  // ----- operations

  datatype Kind = DirKind | FileKind | LinkKind

  function KindOf(n: Node): Kind {
    match n
    case Dir(_) => DirKind
    case File(_, _) => FileKind
    case Link(_) => LinkKind
  }

  /** `k` is the kind of the node. */
  ghost predicate OfKind(k: Kind, n: Node) {
    && (k.DirKind? <==> n.Dir?)
    && (k.FileKind? <==> n.File?)
    && (k.LinkKind? <==> n.Link?)
  }

  /** What a directory of a layer holds. */
  function Entries(t: Tree, p: Path): map<Name, Node> {
    map n | n in ChildNames(t, p) && Child(p, n) in t :: t[Child(p, n)]
  }

  /** What is found below a path that leads through a link or is one. */
  function EntriesBeyond(links: Links, p: Path): map<Name, Node> {
    var names := set q | q in links.beyond && q.Child? && q.parent == p :: q.name;
    map n | n in names && Child(p, n) in links.beyond && links.beyond[Child(p, n)].Ok?
        :: links.beyond[Child(p, n)].value
  }

  /** What the lower layer contributes to a listing. A link is followed: to a directory, which is listed, or to
      nothing, which is passed over. */
  function LowerEntries(lower: Tree, links: Links, p: Path): Reply<map<Name, Node>> {
    match LowerStat(lower, links, p)
    case Err(_) => Ok(map[])
    case Ok(Dir(_)) => Ok(if p in lower then Entries(lower, p) else EntriesBeyond(links, p))
    case Ok(Link(_)) =>
      if p !in links.ends then Ok(map[])
      else if links.ends[p].Dir? then Ok(EntriesBeyond(links, p))
      else Err(NotADirectory)
    case Ok(File(_, _)) => Err(NotADirectory)
  }

  /** The kinds of the entries that no whiteout hides. */
  function Unhidden(gone: set<Path>, p: Path, entries: map<Name, Node>): map<Name, Kind> {
    map n | n in entries && Child(p, n) !in gone :: KindOf(entries[n])
  }

  /** merged_dir_entries: the lower listing, then the upper one over it, without whited-out names. */
  function MergedDirEntries(s: State, p: Path): Reply<map<Name, Kind>> {
    match LowerEntries(s.lower, s.links, p)
    case Err(e) => Err(e)
    case Ok(entries) =>
      if p in s.upper && !s.upper[p].Dir? then Err(NotADirectory)
      else Ok(Unhidden(s.gone, p, entries) + Unhidden(s.gone, p, Entries(s.upper, p)))
  }

  /** ensure_upper_for_write, with copy_up */
  function EnsureUpper(s: State, p: Path): Reply<State>
    requires p.Root? ==> p in s.upper
  {
    if Exists(s.upper, s.links, p) then Ok(s)
    else if p.Root? then Err(Io)
    else
      match CreateDirAll(s.upper, p.parent)
      case Err(_) => Err(Io)
      case Ok(u) =>
        match Found(s, p)
        case Some(Dir(_)) =>
          if p in u then Err(Io) else Ok(s.(upper := u[p := Dir(DEFAULT_DIR_MODE)], gone := s.gone - {p}))
        case found =>
          match CopyOnto(u, s.links, p, if found.Some? then found.value else File([], NEW_FILE_MODE))
          case Err(e) => Err(e)
          case Ok(w) => Ok(s.(upper := w, gone := s.gone - {p}))
  }

  /** The whiteouts after `p` was removed: kept or added if `lower` still has it, else dropped. */
  function GoneAfterRemoval(s: State, p: Path): set<Path> {
    if LowerStat(s.lower, s.links, p).Ok? then s.gone + {p} else s.gone - {p}
  }

  /** remove_file_and_update_whiteout and, with `directory`, remove_dir_and_update_whiteout */
  function RemoveNode(s: State, p: Path, directory: bool): Reply<State> {
    var lower := LowerStat(s.lower, s.links, p);
    if p !in s.upper && Blocked(s.upper, p) then Err(Io)
    else if lower.Err? && lower.errno != NotFound then Err(Io)
    else if p !in s.upper && lower.Err? then Err(NotFound)
    else if p in s.upper && (s.upper[p].Dir? != directory || (directory && ChildNames(s.upper, p) != {})) then Err(Io)
    else Ok(s.(upper := s.upper - {p}, gone := GoneAfterRemoval(s, p)))
  }

  /** fs::copy of a lower file onto an upper link writes to what the link leads to. */
  function WriteThrough(u: Tree, links: Links, to: Path, n: Node): Reply<Tree> {
    match links.landing(u, to)
    case Refused => Err(Io)
    case Outside => Ok(u)
    case Inside(q) => if q in u && u[q].File? then Ok(u[q := n]) else Err(Io)
  }

  /** copy_tree of a file or link. It fails on an existing target when the node is a link; onto a link, a file is
      written through it. */
  function CopyOnto(u: Tree, links: Links, to: Path, n: Node): Reply<Tree> {
    if to !in u then Ok(u[to := n])
    else if !n.File? || u[to].Dir? then Err(Io)
    else if u[to].Link? then WriteThrough(u, links, to, n)
    else Ok(u[to := n])
  }

  /** The whiteouts after a node of the upper layer was moved */
  function GoneAfterMove(s: State, from: Path, to: Path): set<Path> {
    if LowerFound(s.lower, s.links, from).Some? then s.gone - {to} + {from} else s.gone - {to} - {from}
  }

  /** PathOverlay::rename of a file or symbolic link */
  function RenameNode(s: State, from: Path, to: Path): Reply<State>
    requires to.Child?
  {
    match CreateDirAll(s.upper, to.parent)
    case Err(_) => Err(Io)
    case Ok(u) =>
      if Exists(u, s.links, from) then
        if to in u && u[to].Dir? then Err(Io)
        else Ok(s.(upper := (u - {from})[to := u[from]], gone := GoneAfterMove(s, from, to)))
      else
        match Found(s.(upper := u), from)
        case None => Err(Io)
        case Some(n) =>
          match CopyOnto(u, s.links, to, n)
          case Err(e) => Err(e)
          case Ok(w) => Ok(s.(upper := w, gone := s.gone - {to} + {from}))
  }

  function Apply(s: State, op: Op): Reply<State>
    requires Root in s.upper && Allowed(View(s), op)
  {
    match op
    case Create(p, perm) =>
      (match CreateDirAll(s.upper, p.parent)
       case Err(_) => Err(Io)
       case Ok(u) => Ok(s.(upper := u[p := File([], Permissions(perm))], gone := s.gone - {p})))
    case Mkdir(p, perm) =>
      if Exists(s.upper, s.links, p) then Err(AlreadyExists)
      else
        (match CreateDirAll(s.upper, p)
         case Err(_) => Err(Io)
         case Ok(u) => Ok(s.(upper := u[p := Dir(Permissions(perm))], gone := s.gone - {p})))
    case Symlink(p, target) =>
      (match CreateDirAll(s.upper, p.parent)
       case Err(_) => Err(Io)
       case Ok(u) => if p in u then Err(Io) else Ok(s.(upper := u[p := Link(target)], gone := s.gone - {p})))
    case Write(p, how, offset, bytes) =>
      (match EnsureUpper(s, p)
       case Err(e) => Err(e)
       case Ok(t) =>
         if p in t.upper && t.upper[p].File? then
           Ok(t.(upper := t.upper[p := File(Written(t.upper[p].data, how, offset, bytes), t.upper[p].mode)]))
         else Err(Io))
    case SetAttr(p, size, newMode) =>
      (match EnsureUpper(s, p)
       case Err(e) => Err(e)
       case Ok(t) =>
         if p in t.upper then Ok(t.(upper := t.upper[p := Touch(t.upper[p], size, newMode)]))
         else Err(Io))
    case Unlink(p) => RemoveNode(s, p, false)
    case Rmdir(p) =>
      (match MergedDirEntries(s, p)
       case Err(e) => Err(e)
       case Ok(m) => if m == map[] then RemoveNode(s, p, true) else Err(NotEmpty))
    case Rename(p, to) => RenameNode(s, p, to)
  }
}
