/** CategoriesService: create, update (move with subtree path rewrite), remove, and runs of them. */
module CategoryService {
  import opened Common
  import opened CategoryTree

  datatype CreateDto = CreateDto(
    name: string, slug: string, parentId: Option<Id>, sortOrder: Option<nat>, isActive: Option<bool>)

  /** `parentId` in an update: absent, null, or a category id. */
  datatype ParentChange = Keep | ToRoot | Under(parentId: Id)

  datatype UpdateDto = UpdateDto(
    name: Option<string>, slug: Option<string>, parent: ParentChange, sortOrder: Option<nat>, isActive: Option<bool>)

  function GetOr<T>(o: Option<T>, default: T): T {
    if o.Some? then o.value else default
  }

  // ---------- What the three operations mean, in terms of the tree ----------

  predicate SlugTaken(t: Table, slug: string, except: Option<Id>) {
    exists c :: c in t && t[c].slug == slug && Some(c) != except
  }

  function Created(t: Table, id: Id, dto: CreateDto): (Table, Result<Category>) {
    if dto.parentId.Some? && dto.parentId.value !in t then (t, Err(NotFound))
    else if id in t || SlugTaken(t, dto.slug, None) then (t, Err(Conflict))
    else
      var row := Category(dto.name, dto.slug, dto.parentId, PathFor(t, dto.parentId, id),
                          GetOr(dto.sortOrder, 0), GetOr(dto.isActive, true));
      (t[id := row], Ok(row))
  }

  function NewParent(dto: UpdateDto): Option<Id> {
    if dto.parent.Under? then Some(dto.parent.parentId) else None
  }

  predicate IsMoving(row: Category, dto: UpdateDto) {
    dto.parent != Keep && NewParent(dto) != row.parent
  }

  function Edited(row: Category, dto: UpdateDto): Category {
    row.(name := GetOr(dto.name, row.name), slug := GetOr(dto.slug, row.slug),
    sortOrder := GetOr(dto.sortOrder, row.sortOrder), isActive := GetOr(dto.isActive, row.isActive))
  }

  /** A move replaces, in the paths of exactly the moved subtree, the old path of its root by the new one. */
  ghost function Moved(t: Table, id: Id, parent: Option<Id>): Table
    requires Valid(t) && id in t && (parent.Some? ==> parent.value in t)
  {
    map c | c in t ::
      if c == id then t[c].(parent := parent, path := PathFor(t, parent, id))
      else if Descends(t, c, id) then
        (PrefixIsAncestry(t, id, c);
         t[c].(path := PathFor(t, parent, id) + t[c].path[|t[id].path|..]))
      else t[c]
  }

  ghost function Updated(t: Table, id: Id, dto: UpdateDto): (Table, Result<Category>)
    requires Valid(t)
  {
    if id !in t then (t, Err(NotFound))
    else
      var row := Edited(t[id], dto);
      var parent := NewParent(dto);
      if !IsMoving(t[id], dto) then
        if SlugTaken(t, row.slug, Some(id)) then (t, Err(Conflict)) else (t[id := row], Ok(row))
      else if parent == Some(id) then (t, Err(Conflict))
      else if parent.Some? && parent.value !in t then (t, Err(NotFound))
      else if parent.Some? && Descends(t, parent.value, id) then (t, Err(Conflict))
      else if SlugTaken(t, row.slug, Some(id)) then (t, Err(Conflict))
      else
        var moved := Moved(t, id, parent);
        var final := row.(parent := parent, path := PathFor(t, parent, id));
        (moved[id := final], Ok(final))
  }

  predicate HasChildren(t: Table, id: Id) {
    exists c :: c in t && t[c].parent == Some(id)
  }

  function Removed(t: Table, id: Id): (Table, Result<()>) {
    if id !in t then (t, Err(NotFound))
    else if HasChildren(t, id) then (t, Err(Conflict))
    else (t - {id}, Ok(()))
  }

  // ---------- The strings the code works with ----------

  /** SQL LIKE: '%' matches any run of characters, '_' any one, and backslash quotes the next. */
  predicate Like(s: string, pattern: string)
    decreases |s| + |pattern|
  {
    if pattern == "" then s == ""
    else if pattern[0] == '%' then Like(s, pattern[1..]) || (s != "" && Like(s[1..], pattern))
    else if pattern[0] == '_' then s != "" && Like(s[1..], pattern[1..])
    else if pattern[0] == '\\' then |pattern| >= 2 && s != "" && s[0] == pattern[1] && Like(s[1..], pattern[2..])
    else s != "" && s[0] == pattern[0] && Like(s[1..], pattern[1..])
  }

  lemma {:induction false} PercentMatchesAll(s: string)
    ensures Like(s, "%")
  {
    if s == "" {
      assert Like("", "");
    } else {
      PercentMatchesAll(s[1..]);
    }
  }

  /** `LIKE path || '%'` selects exactly the strings that start with `path`, when `path` holds no wildcard. */
  lemma {:induction false} LikeIsPrefix(s: string, path: string)
    requires PlainText(path)
    ensures Like(s, path + "%") <==> path <= s
    decreases |path|
  {
    if path == "" {
      PercentMatchesAll(s);
      assert path + "%" == "%";
    } else {
      var pattern := path + "%";
      assert pattern[0] == path[0] && pattern[1..] == path[1..] + "%";
      assert pattern[0] in path;
      if s != "" {
        assert forall c :: c in path[1..] ==> c in path;
        LikeIsPrefix(s[1..], path[1..]);
        assert path <= s <==> path[0] == s[0] && path[1..] <= s[1..];
      }
    }
  }

  lemma {:induction false} PathsArePlain(t: Table, c: Id)
    requires Valid(t) && c in t
    ensures PlainText(t[c].path)
    decreases |t[c].path|
  {
    assert PathAgrees(t, c);
    if t[c].parent.None? {
    } else {
      PathsArePlain(t, t[c].parent.value);
    }
  }

  /** The rows the UPDATE statement selects are exactly the moved category's proper descendants. */
  lemma StatementSelectsDescendants(t: Table, id: Id, c: Id)
    requires Valid(t) && id in t && c in t
    ensures Like(t[c].path, t[id].path + "%") <==> Descends(t, c, id)
    ensures Descends(t, c, id) ==> t[id].path <= t[c].path
  {
    PathsArePlain(t, id);
    LikeIsPrefix(t[c].path, t[id].path);
    PrefixIsAncestry(t, id, c);
  }

  /** substring(s from n + 1): empty when `s` is shorter. */
  function Substring(s: string, n: nat): string {
    if n <= |s| then s[n..] else ""
  }

  /** UPDATE categories SET path = newPath || substring(...) WHERE path LIKE oldPath || '%' AND id <> id. */
  function RewritePaths(t: Table, id: Id, oldPath: string, newPath: string): Table {
    map c | c in t ::
      if Like(t[c].path, oldPath + "%") && c != id
      then t[c].(path := newPath + Substring(t[c].path, |oldPath|))
      else t[c]
  }

  /** Writing the moved row and then running the statement carries out the move. */
  lemma StatementMovesSubtree(t: Table, id: Id, data: Category)
    requires Valid(t) && id in t && (data.parent.Some? ==> data.parent.value in t)
    requires data.path == PathFor(t, data.parent, id)
    ensures RewritePaths(t[id := data], id, t[id].path, data.path) == Moved(t, id, data.parent)[id := data]
  {
    var written := RewritePaths(t[id := data], id, t[id].path, data.path);
    forall c | c in t
      ensures written[c] == Moved(t, id, data.parent)[id := data][c]
    {
      StatementSelectsDescendants(t, id, c);
    }
  }

  // ---------- The service ----------

  class CategoriesService {
    var rows: Table

    constructor ()
      ensures rows == map[] && Valid(rows)
    {
      rows := map[];
    }

    method Create(id: Id, dto: CreateDto) returns (r: Result<Category>)
      requires Valid(rows)
      modifies this
      ensures (rows, r) == Created(old(rows), id, dto)
      ensures Valid(rows)
    {
      var parentPath := "/";
      if dto.parentId.Some? {
        if dto.parentId.value !in rows {
          return Err(NotFound);
        }
        parentPath := rows[dto.parentId.value].path;
      }
      var path := parentPath + id + "/";
      if id in rows || SlugTaken(rows, dto.slug, None) {
        return Err(Conflict);
      }
      var row := Category(dto.name, dto.slug, dto.parentId, path,
                          GetOr(dto.sortOrder, 0), GetOr(dto.isActive, true));
      CreateKeepsValid(rows, id, dto);
      rows := rows[id := row];
      r := Ok(row);
    }

    method Update(id: Id, dto: UpdateDto) returns (r: Result<Category>)
      requires Valid(rows)
      modifies this
      ensures (rows, r) == Updated(old(rows), id, dto)
      ensures Valid(rows)
    {
      UpdateKeepsValid(rows, id, dto);
      if id !in rows {
        return Err(NotFound);
      }
      var before := rows[id];
      var data := before.(
        name := GetOr(dto.name, before.name), slug := GetOr(dto.slug, before.slug),
        sortOrder := GetOr(dto.sortOrder, before.sortOrder), isActive := GetOr(dto.isActive, before.isActive));
      var parentId := if dto.parent.Under? then Some(dto.parent.parentId) else None;
      var isMoving := dto.parent != Keep && parentId != before.parent;
      var newPath := "";
      if isMoving {
        var newParentPath := "/";
        if parentId.Some? {
          if parentId.value == id {
            return Err(Conflict);
          }
          if parentId.value !in rows {
            return Err(NotFound);
          }
          PrefixIsAncestry(rows, id, parentId.value);
          if before.path <= rows[parentId.value].path {
            return Err(Conflict);
          }
          newParentPath := rows[parentId.value].path;
        }
        newPath := newParentPath + id + "/";
        data := data.(parent := parentId, path := newPath);
      }
      if SlugTaken(rows, data.slug, Some(id)) {
        return Err(Conflict);
      }
      if isMoving {
        StatementMovesSubtree(rows, id, data);
        rows := RewritePaths(rows[id := data], id, before.path, newPath);
      } else {
        rows := rows[id := data];
      }
      r := Ok(data);
    }

    method Remove(id: Id) returns (r: Result<()>)
      requires Valid(rows)
      modifies this
      ensures (rows, r) == Removed(old(rows), id)
      ensures Valid(rows)
    {
      if id !in rows {
        return Err(NotFound);
      }
      if HasChildren(rows, id) {
        return Err(Conflict);
      }
      RemoveKeepsValid(rows, id);
      rows := rows - {id};
      r := Ok(());
    }
  }

  // ---------- Every operation keeps the table valid ----------

  /** Rows whose own path and parent survive, with their parents still there, keep agreeing with the tree. */
  lemma OtherRowsKeepPaths(t: Table, u: Table)
    requires Valid(t) && ParentsExist(u)
    requires forall c :: c in t && c in u ==> u[c].path == t[c].path && u[c].parent == t[c].parent
    ensures forall c :: c in t && c in u ==> PathAgrees(u, c)
  {
    forall c | c in t && c in u
      ensures PathAgrees(u, c)
    {
      assert PathAgrees(t, c);
    }
  }

  lemma CreateKeepsValid(t: Table, id: Id, dto: CreateDto)
    requires Valid(t)
    ensures Valid(Created(t, id, dto).0)
  {
    if Created(t, id, dto).1.Ok? {
      OtherRowsKeepPaths(t, Created(t, id, dto).0);
    }
  }

  lemma RemoveKeepsValid(t: Table, id: Id)
    requires Valid(t)
    ensures Valid(Removed(t, id).0)
  {
    if Removed(t, id).1.Ok? {
      OtherRowsKeepPaths(t, Removed(t, id).0);
    }
  }

  lemma MoveKeepsParents(t: Table, id: Id, parent: Option<Id>)
    requires Valid(t) && id in t && (parent.Some? ==> parent.value in t)
    ensures ParentsExist(Moved(t, id, parent))
  {
  }

  /** The moved category and its descendants get the new path in front of what followed the old one. */
  lemma {:induction false} MovedPath(t: Table, id: Id, parent: Option<Id>, p: Id)
    requires Valid(t) && id in t && p in t && (parent.Some? ==> parent.value in t) && Descends(t, p, id)
    ensures |t[id].path| <= |t[p].path|
    ensures Moved(t, id, parent)[p].path == PathFor(t, parent, id) + t[p].path[|t[id].path|..]
  {
    PrefixIsAncestry(t, id, p);
  }

  lemma SuffixOfLonger(a: string, c: Id, n: nat)
    requires n <= |a|
    ensures (a + c + "/")[n..] == a[n..] + c + "/"
  {
  }

  /** A child moves along with its parent. */
  lemma {:induction false} MovedChildAgrees(t: Table, id: Id, parent: Option<Id>, c: Id, p: Id)
    requires Valid(t) && id in t && c in t && c != id && (parent.Some? ==> parent.value in t)
    requires t[c].parent == Some(p) && p in t && Descends(t, p, id) && Descends(t, c, id)
    ensures Moved(t, id, parent)[c].path == Moved(t, id, parent)[p].path + c + "/"
  {
    assert PathAgrees(t, c);
    MovedPath(t, id, parent, p);
    MovedPath(t, id, parent, c);
    SuffixOfLonger(t[p].path, c, |t[id].path|);
    PrependChild(PathFor(t, parent, id), t[p].path[|t[id].path|..], c);
  }

  lemma PrependChild(front: string, middle: string, c: Id)
    ensures front + (middle + c + "/") == front + middle + c + "/"
  {
  }

  lemma {:induction false} MoveKeepsPaths(t: Table, id: Id, parent: Option<Id>, c: Id)
    requires Valid(t) && id in t && c in t && c != id
    requires parent.Some? ==> parent.value in t && !Descends(t, parent.value, id)
    ensures ParentsExist(Moved(t, id, parent)) && PathAgrees(Moved(t, id, parent), c)
  {
    MoveKeepsParents(t, id, parent);
    assert PathAgrees(t, c);
    DescendsUnfold(t, c, id);
    if t[c].parent.Some? && Descends(t, c, id) {
      MovedChildAgrees(t, id, parent, c, t[c].parent.value);
    } else if t[c].parent.Some? {
      DescendsUnfold(t, t[c].parent.value, id);
    }
  }

  lemma MoveKeepsValid(t: Table, id: Id, parent: Option<Id>)
    requires Valid(t) && id in t
    requires parent.Some? ==> parent.value in t && !Descends(t, parent.value, id)
    ensures Valid(Moved(t, id, parent))
  {
    var m := Moved(t, id, parent);
    assert ParentsExist(m);
    forall c | c in m
      ensures PathAgrees(m, c)
    {
      if c != id {
        MoveKeepsPaths(t, id, parent, c);
      } else if parent.Some? {
        DescendsUnfold(t, id, id);
        assert m[parent.value] == t[parent.value];
      }
    }
    assert SlugsUnique(m) by {
      MoveKeepsSlugs(t, id, parent);
    }
  }

  lemma MoveKeepsSlugs(t: Table, id: Id, parent: Option<Id>)
    requires Valid(t) && id in t && (parent.Some? ==> parent.value in t)
    ensures var m := Moved(t, id, parent); m.Keys == t.Keys && forall c :: c in m ==> m[c].slug == t[c].slug
  {
  }

  lemma EditKeepsValid(t: Table, id: Id, row: Category)
    requires Valid(t) && id in t && row.parent == t[id].parent && row.path == t[id].path
    requires !SlugTaken(t, row.slug, Some(id))
    ensures Valid(t[id := row])
  {
    OtherRowsKeepPaths(t, t[id := row]);
  }

  lemma UpdateKeepsValid(t: Table, id: Id, dto: UpdateDto)
    requires Valid(t)
    ensures Valid(Updated(t, id, dto).0)
  {
    if Updated(t, id, dto).1.Ok? {
      var row := Updated(t, id, dto).1.value;
      if IsMoving(t[id], dto) {
        MoveKeepsValid(t, id, NewParent(dto));
        MoveKeepsSlugs(t, id, NewParent(dto));
        EditKeepsValid(Moved(t, id, NewParent(dto)), id, row);
      } else {
        EditKeepsValid(t, id, row);
      }
    }
  }

  // ---------- What a move changes, and when it is refused ----------

  /** A successful move changes the moved row and the rows of exactly its descendants, and in those only the path. */
  lemma MoveChangesExactlySubtree(t: Table, id: Id, dto: UpdateDto, c: Id)
    requires Valid(t) && id in t && IsMoving(t[id], dto) && Updated(t, id, dto).1.Ok?
    requires c in t && c != id
    ensures var u := Updated(t, id, dto).0;
            && u.Keys == t.Keys
            && u[id].parent == NewParent(dto)
            && (u[c] != t[c] <==> Descends(t, c, id))
            && u[c] == t[c].(path := u[c].path)
  {
    var (u, r) := Updated(t, id, dto);
    var parent := NewParent(dto);
    MoveKeepsSlugs(t, id, parent);
    if Descends(t, c, id) {
      PrefixIsAncestry(t, id, c);
      MovedRootGetsNewPath(t, id, parent);
      SuffixCancels(t[id].path, r.value.path, t[c].path[|t[id].path|..]);
      assert t[c].path == t[id].path + t[c].path[|t[id].path|..];
    }
  }

  lemma SuffixCancels(a: string, b: string, suffix: string)
    ensures a + suffix == b + suffix <==> a == b
  {
    assert (a + suffix)[..|a|] == a && (b + suffix)[..|b|] == b;
  }

  lemma MovedRootGetsNewPath(t: Table, id: Id, parent: Option<Id>)
    requires Valid(t) && id in t && parent != t[id].parent && (parent.Some? ==> parent.value in t)
    ensures PathFor(t, parent, id) != t[id].path
  {
    assert PathAgrees(t, id);
    PathFixesParent(t, id, parent, t[id].parent);
  }

  lemma PathFixesParent(t: Table, id: Id, p: Option<Id>, q: Option<Id>)
    requires Valid(t) && (p.Some? ==> p.value in t) && (q.Some? ==> q.value in t)
    ensures PathFor(t, p, id) == PathFor(t, q, id) ==> p == q
  {
    PathEndsInSlash(t, p);
    PathEndsInSlash(t, q);
    assert p.Some? ==> PathAgrees(t, p.value);
    assert q.Some? ==> PathAgrees(t, q.value);
    if PathFor(t, p, id) == PathFor(t, q, id) {
      LastSegmentIsId(PathUnder(t, p), id, PathUnder(t, q), id);
      if p.Some? && q.Some? {
        PathsDistinct(t, p.value, q.value);
      }
    }
  }

  /** A move to an existing category is refused exactly when that category lies in the moved subtree
      (or the new slug is taken). */
  lemma MoveRefusedIff(t: Table, id: Id, dto: UpdateDto)
    requires Valid(t) && id in t && IsMoving(t[id], dto) && (dto.parent.Under? ==> dto.parent.parentId in t)
    ensures Updated(t, id, dto).1.Err? <==>
            || (dto.parent.Under? && Descends(t, dto.parent.parentId, id))
            || SlugTaken(t, GetOr(dto.slug, t[id].slug), Some(id))
    ensures Updated(t, id, dto).1.Err? ==> Updated(t, id, dto) == (t, Err(Conflict))
  {
    DescendsUnfold(t, id, id);
  }

  // ---------- What each call leaves in the row it names ----------

  ghost predicate OtherHasSlug(t: Table, id: Id, slug: string) {
    exists c :: c in t && c != id && t[c].slug == slug
  }

  /** A field takes the value given for it; without one it stays. */
  predicate Takes<T(==)>(after: T, before: T, given: Option<T>) {
    (given.Some? ==> after == given.value) && (given.None? ==> after == before)
  }

  lemma CreateEffect(t: Table, id: Id, dto: CreateDto)
    requires Valid(t)
    ensures var ((u, r), parent) := (Created(t, id, dto), dto.parentId);
            && (r == Err(NotFound) <==> parent.Some? && parent.value !in t)
            && (r == Err(Conflict) <==>
                  r != Err(NotFound) && (id in t || OtherHasSlug(t, id, dto.slug)))
            && (r.Err? ==> u == t && r.error in {NotFound, Conflict})
            && (r.Ok? ==>
                  && r == Ok(u[id]) && u == t[id := u[id]] && id !in t
                  && u[id].name == dto.name && u[id].slug == dto.slug && u[id].parent == parent
                  && u[id].path == (if parent.Some? then t[parent.value].path else "/") + id + "/"
                  && Takes(u[id].sortOrder, 0, dto.sortOrder) && Takes(u[id].isActive, true, dto.isActive))
  {
  }

  /** After a successful update the category hangs where the request says, or where it was; its other fields are those
      requested, or as before; every other category keeps everything but the path of a moved descendant. */
  lemma UpdateEffect(t: Table, id: Id, dto: UpdateDto)
    requires Valid(t) && id in t && Updated(t, id, dto).1.Ok?
    ensures var (u, r) := Updated(t, id, dto);
            && u.Keys == t.Keys && r == Ok(u[id])
            && (match dto.parent
                case Keep => u[id].parent == t[id].parent && u[id].path == t[id].path
                case ToRoot => u[id].parent == None && u[id].path == "/" + id + "/"
                case Under(p) => u[id].parent == Some(p) && p in u && u[id].path == u[p].path + id + "/")
            && Takes(u[id].name, t[id].name, dto.name) && Takes(u[id].slug, t[id].slug, dto.slug)
            && Takes(u[id].sortOrder, t[id].sortOrder, dto.sortOrder)
            && Takes(u[id].isActive, t[id].isActive, dto.isActive)
            && forall c :: c in t && c != id ==>
                 && u[c] == t[c].(path := u[c].path)
                 && (u[c].path != t[c].path ==> u[id].parent != t[id].parent && Descends(t, c, id))
  {
    UpdateKeepsValid(t, id, dto);
    assert PathAgrees(t, id) && PathAgrees(Updated(t, id, dto).0, id);
  }

  /** An update is refused for a missing category or parent, for a parent inside the category's own subtree, and for a
      slug that another category has; for nothing else. */
  lemma UpdateReplies(t: Table, id: Id, dto: UpdateDto)
    requires Valid(t)
    ensures var ((u, r), p) := (Updated(t, id, dto), dto.parent);
            && (r == Err(NotFound) <==> id !in t || (p.Under? && p.parentId !in t))
            && (r == Err(Conflict) <==>
                  && r != Err(NotFound)
                  && ((p.Under? && Descends(t, p.parentId, id))
                      || (dto.slug.Some? && OtherHasSlug(t, id, dto.slug.value))))
            && (r.Err? ==> u == t && r.error in {NotFound, Conflict})
  {
    if id in t {
      DescendsUnfold(t, id, id);
      if t[id].parent.Some? {
        assert PathAgrees(t, id);
        PrefixIsAncestry(t, id, t[id].parent.value);
      }
    }
  }

  lemma RemoveEffect(t: Table, id: Id)
    ensures var (u, r) := Removed(t, id);
            && (r == Err(NotFound) <==> id !in t)
            && (r == Err(Conflict) <==> id in t && exists c :: c in t && t[c].parent == Some(id))
            && (r.Err? ==> u == t && r.error in {NotFound, Conflict})
            && (r.Ok? ==> u.Keys == t.Keys - {id} && forall c :: c in u ==> u[c] == t[c])
  {
  }

  // ---------- Runs ----------

  datatype Command = Create(id: Id, create: CreateDto) | Update(id: Id, update: UpdateDto) | Remove(id: Id)

  ghost function Step(t: Table, command: Command): (u: Table)
    requires Valid(t)
    ensures Valid(u)
  {
    match command
    case Create(id, dto) => CreateKeepsValid(t, id, dto); Created(t, id, dto).0
    case Update(id, dto) => UpdateKeepsValid(t, id, dto); Updated(t, id, dto).0
    case Remove(id) => RemoveKeepsValid(t, id); Removed(t, id).0
  }

  /** The table after any sequence of service calls, successful or not, starting from an empty one. */
  ghost function Run(commands: seq<Command>): (t: Table)
    ensures Valid(t)
  {
    if commands == [] then map[]
    else Step(Run(commands[..|commands| - 1]), commands[|commands| - 1])
  }

  /** In every reachable table, the prefix test is the ancestor test, and nobody is its own proper ancestor. */
  lemma ReachableTables(commands: seq<Command>, x: Id, y: Id, n: nat)
    requires x in Run(commands) && y in Run(commands) && n > 0
    ensures var t := Run(commands);
            && t[y].path == PathFor(t, t[y].parent, y)
            && (t[x].path <= t[y].path <==> Descends(t, y, x))
            && Up(t, y, n) != Some(y)
  {
    PrefixIsAncestry(Run(commands), x, y);
    Acyclic(Run(commands), y, n);
    assert PathAgrees(Run(commands), y);
  }
}
