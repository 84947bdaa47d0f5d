/** Requests that change rows and files together: logos, avatars, and deleting an account with
    what it still owns (app/application/workspaces.py, accounts.py). A new file is stored before
    the transaction and taken back when that fails; an old one goes after it. */
module MediaRequests {
  import opened Wrappers
  import opened Access
  import opened Entities
  import opened Store
  import opened Services
  import opened Purge

  /** A request whose transaction was `change`: it took effect with its files swapped, or
      nothing happened at all. */
  ghost predicate Swapped(change: U.Change, lost: Option<Error>, added: Option<Key>, dropped: Option<Key>,
                          was: Tables, objects: set<Key>, t: Tables, objects': set<Key>, r: Answer) {
    if change.Success? && lost.None? then
      r == Success(()) && t == change.value && objects' == objects + Maybe(added) - Maybe(dropped)
    else
      && t == was && objects' == objects
      && r == Failure(if change.Failure? then change.error else lost.value)
  }

  function LogoOf(t: Tables, w: Id): Option<Key> {
    if w in t.workspaces then t.workspaces[w].logoKey else None
  }

  function AvatarOf(t: Tables, u: Id): Option<Key> {
    if u in t.users then t.users[u].avatarKey else None
  }

  class MediaRequests {
    const uow: UnitOfWork
    const media: MediaStorage
    const workspaces: WorkspaceService
    const accounts: AccountService
    const purge: WorkspacePurge

    constructor (uow: UnitOfWork, media: MediaStorage, workspaces: WorkspaceService, accounts: AccountService,
                 purge: WorkspacePurge)
      requires workspaces.uow == uow && accounts.uow == uow && purge.uow == uow && purge.media == media
      ensures Wired() && this.uow == uow && this.media == media
    {
      this.uow, this.media, this.workspaces, this.accounts, this.purge := uow, media, workspaces, accounts, purge;
    }

    predicate Wired() {
      workspaces.uow == uow && accounts.uow == uow && purge.uow == uow && purge.media == media
    }

    method StoreNew(key: Option<Key>)
      modifies media
      ensures media.objects == old(media.objects) + Maybe(key)
    {
      if key.Some? {
        media.objects := media.objects + {key.value};
      }
    }

    method Discard(key: Option<Key>)
      modifies media
      ensures media.objects == old(media.objects) - Maybe(key)
    {
      if key.Some? {
        media.Delete(key.value);
      }
    }

    /** `set_logo`; `lost` is how the commit fails, if it does. */
    method SetLogo(w: Id, newKey: Option<Key>, u: Id, lost: Option<Error>) returns (r: Answer)
      requires Wired() && Maybe(newKey) !! media.objects
      modifies uow, media
      ensures var t := old(uow.Tables());
              if U.Require(t, u, WorkspaceUpdate, w).Refuse? then
                && r == Failure(U.Require(t, u, WorkspaceUpdate, w).reason)
                && uow.Tables() == t && media.objects == old(media.objects)
              else
                Swapped(U.SetLogo(t, w, newKey, u), lost, newKey, LogoOf(t, w), t, old(media.objects),
                        uow.Tables(), media.objects, r)
    {
      var allowed := U.Require(uow.Tables(), u, WorkspaceUpdate, w);
      :- allowed;
      StoreNew(newKey);
      var t, previous := uow.Tables(), LogoOf(uow.Tables(), w);
      r := workspaces.ReplaceLogo(w, newKey, u);
      if r.Success? && lost.Some? {
        r := Failure(lost.value);
      }
      if r.Failure? {
        uow.Rollback(t);
        Discard(newKey);
      } else {
        Discard(previous);
      }
    }

    /** `set_avatar`. */
    method SetAvatar(u: Id, newKey: Option<Key>, lost: Option<Error>) returns (r: Answer)
      requires Wired() && Maybe(newKey) !! media.objects
      modifies uow, media
      ensures var t := old(uow.Tables());
              if U.Require(t, u, ProfileUpdate, u).Refuse? then
                && r == Failure(U.Require(t, u, ProfileUpdate, u).reason)
                && uow.Tables() == t && media.objects == old(media.objects)
              else
                Swapped(U.SetAvatar(t, u, newKey), lost, newKey, AvatarOf(t, u), t, old(media.objects),
                        uow.Tables(), media.objects, r)
    {
      var allowed := U.Require(uow.Tables(), u, ProfileUpdate, u);
      :- allowed;
      StoreNew(newKey);
      var t, previous := uow.Tables(), AvatarOf(uow.Tables(), u);
      r := accounts.ReplaceAvatar(u, newKey);
      if r.Success? && lost.Some? {
        r := Failure(lost.value);
      }
      if r.Failure? {
        uow.Rollback(t);
        Discard(newKey);
      } else {
        Discard(previous);
      }
    }

    /** `delete` of an account: first the soft-deleted workspaces that still name it as their
        owner are purged, each for good; then the account goes with what names it. When that last
        transaction fails (`lost`), the purged workspaces stay purged and nothing else changes. */
    method DeleteAccount(u: Id, lost: Option<Error>) returns (r: Answer)
      requires Wired()
      modifies uow, media
      ensures var t, objects := old(uow.Tables()), old(media.objects);
              var owned := DeletedOwnedBy(t, u);
              match U.EnsureDeletable(t, u)
              case Refuse(e) => r == Failure(e) && uow.Tables() == t && media.objects == objects
              case Pass =>
                if lost.Some? then
                  && r == Failure(lost.value)
                  && uow.Tables() == Without(t, owned)
                  && media.objects == objects - KeysOf(t, owned)
                else
                  && r == Success(())
                  && U.DeleteAccount(Without(t, owned), u) == Success(uow.Tables())
                  && media.objects == objects - KeysOf(t, owned) - Maybe(AvatarOf(t, u))
    {
      var allowed := U.EnsureDeletable(uow.Tables(), u);
      :- allowed;
      StillDeletable(uow.Tables(), DeletedOwnedBy(uow.Tables(), u), u);
      PurgeOwned(u);
      var t, avatar := uow.Tables(), AvatarOf(uow.Tables(), u);
      r := accounts.DeleteRow(u);
      if lost.Some? {
        uow.Rollback(t);
        return Failure(lost.value);
      }
      Discard(avatar);
    }

    /** Purges every soft-deleted workspace that names the account as its owner. */
    method PurgeOwned(u: Id)
      requires Wired()
      modifies uow, media
      ensures var t := old(uow.Tables());
              && uow.Tables() == Without(t, DeletedOwnedBy(t, u))
              && media.objects == old(media.objects) - KeysOf(t, DeletedOwnedBy(t, u))
    {
      ghost var t := uow.Tables();
      var owned := DeletedOwnedBy(uow.Tables(), u);
      var left := owned;
      NothingGone(t);
      while left != {}
        invariant left <= owned
        invariant uow.Tables() == Without(t, owned - left)
        invariant media.objects == old(media.objects) - KeysOf(t, owned - left)
      {
        var w :| w in left;
        ghost var done := owned - left;
        PurgesCompose(t, done, w);
        KeysCompose(t, done, w);
        purge.Purge(w);
        left := left - {w};
        assert owned - left == done + {w};
      }
      assert owned - left == owned;
    }
  }

  /** `workspaces.deleted_ids(owned_by=...)`. */
  function DeletedOwnedBy(t: Tables, u: Id): set<Id> {
    set w <- t.workspaces | !t.workspaces[w].Live() && t.workspaces[w].ownerId == u
  }

  /** The files the requests above drop are the ones the rows pointed at. */
  lemma DroppedFilesExactly(t: Tables, w: Id, u: Id, k: Key)
    ensures LogoOf(t, w) == Some(k) <==> w in t.workspaces && t.workspaces[w].logoKey == Some(k)
    ensures AvatarOf(t, u) == Some(k) <==> u in t.users && t.users[u].avatarKey == Some(k)
    ensures w in DeletedOwnedBy(t, u) <==> w in t.workspaces && t.workspaces[w].deletedAt != None && t.workspaces[w].ownerId == u
    ensures Maybe(Some(k)) == {k} && Maybe(None) == {}
  {}

  /** Purging deleted workspaces does not stand in the way of the deletion. */
  lemma StillDeletable(t: Tables, ws: set<Id>, u: Id)
    requires U.EnsureDeletable(t, u).Pass? && ws <= DeletedOwnedBy(t, u)
    ensures U.EnsureDeletable(Without(t, ws), u).Pass? && ExistingUser(Without(t, ws), u).Success?
  {}

  /** After an account is deleted no workspace, live or deleted, no membership and no invitation
      it sent names it any more. */
  lemma DeletionLeavesNoReference(t: Tables, u: Id)
    requires U.DeleteAccount(Without(t, DeletedOwnedBy(t, u)), u).Success?
    ensures var t' := U.DeleteAccount(Without(t, DeletedOwnedBy(t, u)), u).value;
            && u !in t'.users
            && (forall w <- t'.workspaces :: t'.workspaces[w].ownerId != u)
            && (forall m <- t'.members :: m.1 != u)
            && (forall i <- t'.invitations :: t'.invitations[i].invitedBy != u)
  {}
}
