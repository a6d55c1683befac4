/** The user-group state of the web UI: a page-accumulating list of user
    groups and the group being viewed, and the reducer that moves it from one
    state to the next on each action. */
module UserGroupReducer {
  import opened Wrappers

  datatype UserGroup = UserGroup(id: string, name: string, authorId: string, users: seq<string>)

  datatype UserGroupPagination = UserGroupPagination(
    content: seq<UserGroup>,
    page: int,
    size: int,
    totalPages: int,
    last: bool)

  datatype UserGroupState = UserGroupState(list: UserGroupPagination, item: Option<UserGroup>)

  /** A page as the API delivers it; its content may be absent. */
  datatype PagePayload = PagePayload(
    content: Option<seq<UserGroup>>,
    page: int,
    size: int,
    totalPages: int,
    last: bool)

  datatype UserGroupAction =
    | LoadedUserGroups(pagePayload: PagePayload)
    | LoadedUserGroup(itemPayload: Option<UserGroup>)
    | UpdateUserGroup(group: UserGroup)
    | ResetUserGroups
    | OtherAction(actionType: string)

  /** `initialListState`. */
  const InitialListState := UserGroupPagination([], 0, 0, 0, false)

  /** `userGroupInitialState`. */
  const UserGroupInitialState := UserGroupState(InitialListState, None)

  /** The `map` of `updateUserGroup`: every group with the given one's id is
      replaced by it, in place. */
  function ReplaceById(content: seq<UserGroup>, group: UserGroup): (r: seq<UserGroup>)
    ensures |r| == |content|
    ensures forall i :: 0 <= i < |r| ==> r[i] == (if content[i].id == group.id then group else content[i])
  {
    if content == [] then []
    else [if content[0].id == group.id then group else content[0]] + ReplaceById(content[1..], group)
  }

  /** `userGroupReducer(state, action)`; an undefined state is the initial
      state. Only a loaded group changes the viewed item; only list actions
      change the list, and only a reset shortens it. */
  function Reduce(state: Option<UserGroupState>, action: UserGroupAction): (r: UserGroupState)
    ensures var s := if state.Some? then state.value else UserGroupInitialState;
            && (!action.LoadedUserGroup? ==> r.item == s.item)
            && (action.LoadedUserGroup? || action.OtherAction? ==> r.list == s.list)
            && (action.ResetUserGroups? ==> r.list.content == [])
            && (!action.ResetUserGroups? ==> |r.list.content| >= |s.list.content|)
  {
    var s := if state.Some? then state.value else UserGroupInitialState;
    match action
    case LoadedUserGroups(p) =>
      s.(list := UserGroupPagination(
           s.list.content + (if p.content.Some? then p.content.value else []),
           p.page, p.size, p.totalPages, p.last))
    case LoadedUserGroup(g) => s.(item := g)
    case UpdateUserGroup(g) => s.(list := s.list.(content := ReplaceById(s.list.content, g)))
    case ResetUserGroups => s.(list := UserGroupInitialState.list)
    case OtherAction(_) => s
  }

  /** A loaded page takes over the list's fields and appends its content to
      what was loaded before; the viewed item is kept. */
  lemma LoadedUserGroupsAppends(s: UserGroupState, p: PagePayload)
    ensures Reduce(Some(s), LoadedUserGroups(p)).list.content ==
            s.list.content + (if p.content.Some? then p.content.value else [])
    ensures p.content.None? ==> Reduce(Some(s), LoadedUserGroups(p)).list.content == s.list.content
    ensures var l := Reduce(Some(s), LoadedUserGroups(p)).list;
            l.page == p.page && l.size == p.size && l.totalPages == p.totalPages && l.last == p.last
    ensures Reduce(Some(s), LoadedUserGroups(p)).item == s.item
  {
  }

  /** Loading two pages in turn accumulates both contents, in order. */
  lemma LoadingPagesAccumulates(s: UserGroupState, p1: PagePayload, p2: PagePayload)
    requires p1.content.Some? && p2.content.Some?
    ensures Reduce(Some(Reduce(Some(s), LoadedUserGroups(p1))), LoadedUserGroups(p2)).list.content ==
            s.list.content + p1.content.value + p2.content.value
  {
  }

  /** Loading a single group replaces only the viewed item. */
  lemma LoadedUserGroupReplacesItem(s: UserGroupState, g: Option<UserGroup>)
    ensures Reduce(Some(s), LoadedUserGroup(g)) == UserGroupState(s.list, g)
  {
  }

  /** Updating a group keeps the list's length, order, ids and other fields
      and the viewed item; every entry with the group's id becomes the group
      and every other entry is left as it was. */
  lemma UpdateUserGroupReplacesInPlace(s: UserGroupState, g: UserGroup)
    ensures var r := Reduce(Some(s), UpdateUserGroup(g));
            && r.item == s.item
            && r.list.(content := s.list.content) == s.list
            && |r.list.content| == |s.list.content|
            && (forall i :: 0 <= i < |s.list.content| ==> r.list.content[i].id == s.list.content[i].id)
            && (forall i :: 0 <= i < |s.list.content| && s.list.content[i].id == g.id ==> r.list.content[i] == g)
            && (forall i :: 0 <= i < |s.list.content| && s.list.content[i].id != g.id ==> r.list.content[i] == s.list.content[i])
  {
  }

  /** Updating with the same group twice is updating once. */
  lemma UpdateUserGroupIsIdempotent(s: UserGroupState, g: UserGroup)
    ensures Reduce(Some(Reduce(Some(s), UpdateUserGroup(g))), UpdateUserGroup(g)) == Reduce(Some(s), UpdateUserGroup(g))
  {
    var once := ReplaceById(s.list.content, g);
    var twice := ReplaceById(once, g);
    assert twice == once;
  }

  /** An update for a group that is not listed changes nothing. */
  lemma UpdateOfUnlistedGroupIsNoop(s: UserGroupState, g: UserGroup)
    requires forall i :: 0 <= i < |s.list.content| ==> s.list.content[i].id != g.id
    ensures Reduce(Some(s), UpdateUserGroup(g)) == s
  {
    assert ReplaceById(s.list.content, g) == s.list.content;
  }

  /** Reset empties the list back to its initial state and keeps the item. */
  lemma ResetRestoresInitialList(s: UserGroupState)
    ensures Reduce(Some(s), ResetUserGroups) == UserGroupState(InitialListState, s.item)
    ensures Reduce(Some(s), ResetUserGroups).list.content == []
  {
  }

  /** An action the reducer does not handle leaves the state as it is; with
      no state it yields the initial state. */
  lemma OtherActionKeepsState(state: Option<UserGroupState>, t: string)
    ensures state.Some? ==> Reduce(state, OtherAction(t)) == state.value
    ensures state.None? ==> Reduce(state, OtherAction(t)) == UserGroupInitialState
  {
  }
}
