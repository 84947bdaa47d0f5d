# Verification of the workspace and catalog core

A Dafny model of the transactional core of the application: workspaces with roles, members and
invitations; accounts; the product catalog with its quotas, images and stored files; the
optimistic transactions all of it runs in; product lists; the purge of deleted workspaces; and
the request limiter. The database declares no foreign keys and its transactions are optimistic,
so every consistency rule here is kept by the use cases themselves.

`dafny verify dfyconfig.toml` checks the whole project.

## How it is organised

Workspaces, members, invitations and accounts, each use case one atomic step over the tables:

- `Access`, `Text`, `Entities`, `Store`: the permission tables, string clean-ups, rows and queries.
- `UseCases`: each use case as a function from tables to new tables or an error.
- `Invariant`, `Runs`: one invariant of the tables, kept by every use case, hence by every run.
- `WorkspaceTheorems`: what the invariant means to callers.
- `Authority`: who may do what, read off the permission list a member is shown and ownership.
- `WorkspaceOutcomes`, `RoleOutcomes`, `MemberOutcomes`, `AccountOutcomes`: when each use case
  succeeds, what each refusal means, and which fields of which rows differ afterwards, in terms of
  the rows alone.
- `Services`, `MediaRequests`: the use cases as they run, changing a unit of work in place (and the
  bucket, for logos, avatars and account deletion), each proved to do what `UseCases` says.

The catalog, where requests interleave:

- `ProductRows`, `ProductAggregate`: the product as a value and as the object that changes in place.
- `Catalog`: requests that run a transaction in up to three attempts, each against a snapshot and
  validated at its commit, store files while the first is open and clean up after the last, as a
  state machine whose steps interleave. The first snapshot is the one the route checks access in.
- `CatalogBytes`, `CatalogEffects`: what one transaction does to its snapshot.
- `CatalogInvariant`, `CatalogCommit`: the invariant of the machine and its preservation.
- `CatalogTheorems`: what the invariant means for media, quotas, versions and confirmed uploads.
- `ProductOutcomes`, `CatalogOutcomes`: when a request succeeds, what each refusal means and what
  it leaves, for one transaction and in runs.
- `CatalogAtomic`: when a transaction that passed validation is one atomic step.
- `CatalogMembers`: members are of live workspaces under every interleaving.
- `CatalogOwners`, `CatalogOverlaps`, `CatalogQuotas`, `CatalogOnboarding`: three promises the
  validation does not give, each with the exact condition under which it is kept.
- `CatalogRuns`, `CatalogAnomaly`: runs built step by step, and one for each promise broken.
- `Projection`: which transactions of `Catalog` each use case of `UseCases` makes.
- `ProductServices`: the product use cases as they run, tied to the transactions of `Catalog`.
- `Transactions`, `CatalogRetry`: the retry loop of the unit of work, for any work and for the
  transactions of `Catalog`, whose validation is what the loop asks of its database.

The rest: `Listing`, `Search`, `Cursors`, `Framings` (pages, search patterns, cursors and a
framing they may use), `ListedRows` (the pages in terms of the products' own fields), `Purge` (the batch loop), `RateLimits` (the fixed-window counter).

## Where the code does not keep a promise

What a transaction reads without writing or locking it may be out of date at its commit. Three
promises fail for that reason. For each there is a run in which it fails, a theorem that says of
every commit exactly when it keeps the promise, and one that says the same of whole runs.

- The owner of a live workspace exists. Closing an account reads whether it owns a live workspace,
  founding one reads its founder's row (and does not write that of a founder past onboarding), so
  both can commit: `CatalogAnomaly.ClosingRacesFounding`. Exactly:
  `CatalogOwners.CommitKeepsOwnersExactly`, `CatalogOwners.OwnersExistExactly`. Safe: no close
  overlaps a founding or joining of the same account past onboarding
  (`CatalogOverlaps.OwnersExistWithoutOverlap`); one that completes an onboarding needs no such
  care (`CatalogOverlaps.OwnersExistWhileOnboarding`).
- A workspace stays within its quotas, also once it is deleted. Creations let in while it is live
  lose their race against the deletion and try again; the lock of the deleted workspace then locks
  nothing, and both find the last free place: `CatalogAnomaly.DeletedWorkspaceOverfills`. Exactly:
  `CatalogQuotas.CommitKeepsQuotasExactly`, `CatalogQuotas.QuotasHoldExactly`. Safe: the snapshot
  shows the workspace live (`CatalogQuotas.LockedCommitsFit`,
  `CatalogQuotas.QuotasHoldUnderTheLock`), as it does in every first attempt
  (`CatalogQuotas.OverfillingIsARetry`); live workspaces never exceed theirs
  (`CatalogTheorems.QuotasAlwaysHold`).
- Past the profile step, an account has completed onboarding if and only if it is a member
  somewhere. Two removals of one person from two workspaces each see the other membership and
  leave the account as it is: `CatalogAnomaly.RemovalsMissEachOther`. Exactly:
  `CatalogOnboarding.CommitAgreesExactly`, `CatalogOnboarding.OnboardingAgreesExactly`. Safe: what
  was read without a lock still holds (`CatalogOnboarding.CurrentReadsMisjudgeNobody`).

The statements of `WorkspaceTheorems` are about use cases that run one after the other.

## Model

| member | source | states |
|---|---|---|
| Runs.ApplyKeeps | app/application/workspaces.py:84-430 | every use case of workspaces, roles, members, invitations and accounts, and the purge of rows, keeps the invariant of the tables, reading a clock that only moves forward |
| Runs.RunKeeps | app/application/workspaces.py:84-430 | the invariant holds after any sequence of commands, refused ones rolled back |
| Runs.CreateKeeps | app/application/workspaces.py:134-156 | founding a workspace, with the system roles and a first member who owns it, keeps the invariant; the slug check is what makes slugs unique |
| Runs.DeleteKeeps | app/application/workspaces.py:206-220 | soft deletion drops members, revokes pending invitations and returns people to the workspace step, so that no member or open invitation names a deleted workspace |
| Runs.SaveRoleKeeps | app/application/workspaces.py:230-252 | saving a role, whose name may not be the owner's, keeps one protected role per workspace and unique role names |
| Runs.DeleteRoleKeeps | app/application/workspaces.py:254-268 | a deleted role leaves no member, grant or invitation behind that names it |
| Runs.SetPermissionsKeeps | app/application/workspaces.py:270-281 | no role ever stores an owner action or an unknown permission |
| Runs.SetMemberRoleKeeps | app/application/workspaces.py:298-313 | assigning a role neither takes the owner's role away nor gives it to a second member |
| Runs.RemoveMemberKeeps | app/application/workspaces.py:315-330 | removing a member keeps one owner and sends a person left without a workspace back one onboarding step |
| Runs.TransferKeeps | app/application/workspaces.py:332-354 | the owner's role and the owner of the workspace move together; the previous owner is given the admin role, created again if it is gone |
| Runs.InviteKeeps | app/application/workspaces.py:365-386 | a new invitation keeps at most one open one per workspace and address, and none for a member |
| Runs.JoinKeeps | app/application/workspaces.py:84-100 | accepting makes the account a member with an unprotected role of a live workspace and settles the invitation |
| Runs.RegisterKeeps | app/application/accounts.py:36-65 | registration keeps the invariant whether or not the account, its address or its invitation can be used |
| Runs.DeleteAccountKeeps | app/application/accounts.py:135-164 | deleting an account that owns nothing live keeps every reference to accounts valid |
| Runs.PurgeRowsKeeps | app/infrastructure/db/repositories.py:144-153 | the rows of a deleted workspace can go without leaving a dangling reference |
| WorkspaceTheorems.SingleOwnerAlways | app/domain/workspace.py:129-138 | in every reachable state a live workspace has exactly one protected role, it is the one named owner, exactly the named owner holds it, and that account exists |
| WorkspaceTheorems.SingleOwnerCheckNeverFires | app/application/workspaces.py:332-354 | from a reachable state the single-owner check in create, set_member_role, remove_member and transfer never fails |
| WorkspaceTheorems.ReferencesHold | app/application/accounts.py:143-149 | members name an existing user, a live workspace and a role of it; invitations name an existing workspace, an unprotected role of it and an existing inviter; owners of live workspaces exist |
| WorkspaceTheorems.UsableTokensPreview | app/application/workspaces.py:413-420 | a token previews if and only if it is the token of an open invitation, and the only other answer is that it is not usable |
| WorkspaceTheorems.OpenInvitationsAreUnique | app/application/workspaces.py:365-386 | at every moment at most one invitation per workspace and address is pending and unexpired, and none is for the address of a member |
| WorkspaceTheorems.JoinsExactlyWhenInvited | app/application/workspaces.py:84-100 | joining succeeds exactly for an existing account with the invited address, an open invitation and no membership yet; it adds one member, settles that invitation and nothing else; otherwise nothing changes |
| WorkspaceTheorems.InvitationsSettleOnce | app/domain/workspace.py:235-256 | an invitation that left pending never changes again while it exists; an accepted one names who accepted |
| WorkspaceTheorems.GoneInvitationsStayGone | app/application/workspaces.py:365-386 | an invitation that was removed never comes back under its id |
| WorkspaceTheorems.OnboardingAgreesWithMembership | app/application/workspaces.py:442-447 | past the profile step, an account has completed onboarding if and only if it is a member somewhere, and its name is not blank |
| WorkspaceTheorems.PermissionListIsExact | app/domain/workspace.py:111-127 | an action of the catalog or of the owner is in the list a member is shown if and only if it is permitted |
| WorkspaceTheorems.StoredPermissionsAreCatalogued | app/domain/workspace.py:53-59 | in every reachable state a role stores only catalog permissions, never an owner action |
| Authority.ListsAreTheRoles | app/domain/workspace.py:122-127 | in every reachable state the list a member is shown is, for the owner, every catalog action and both owner actions, and for anybody else exactly what their role was granted, without deleting or handing over |
| Authority.RequireExactly | app/application/access.py:16-34 | an action in a workspace is let through exactly for an account past onboarding that is a member of the live workspace and whose list shows it; otherwise the refusal says whether the account, an onboarding step or the permission is missing |
| Authority.OwnerActionsTakeOwnership | app/domain/access.py:45-47 | deleting and handing over are shown to, and permitted to, the owner and nobody else |
| Authority.ReadingTakesMembership | app/domain/workspace.py:118-119 | reading a workspace or its products takes exactly being a member of it past onboarding |
| Authority.OwnAccountExactly | app/domain/access.py:69-87 | an account may found a workspace exactly from the workspace step on, and do what concerns itself at every step; nobody acts on another account |
| Authority.CommandsAreAuthorized | app/application/workspaces.py:84-430 | no command succeeds in a reachable state unless its actor may do it, by their list or by owning the workspace; inviting as anything but the system member role also takes managing roles |
| Authority.OthersAreRefused | app/application/workspaces.py:158-411 | for every command on a workspace: whoever may not act there is told so, the first missing thing first, whatever else is wrong with the command; whoever may is never told so |
| WorkspaceOutcomes.CreateSucceedsExactly | app/application/workspaces.py:134-156 | founding succeeds exactly for an account past the profile step, a name that is not blank and a slug no workspace has; which of the last two is missing is what the refusal says |
| WorkspaceOutcomes.CreateLeaves | app/application/workspaces.py:134-156 | afterwards one workspace is new, its founder owns it, is its only member under its owner role and has completed onboarding; the four system roles grant what their names promise; every other row is as it was |
| WorkspaceOutcomes.SystemRolesPromise | app/domain/access.py:49-58 | the four system roles by name: owner and viewer store nothing, admin every catalog action but deleting, member the three on products |
| WorkspaceOutcomes.UpdateSucceedsExactly | app/application/workspaces.py:158-171 | editing succeeds exactly for a live workspace, an actor whose list shows it and a slug no other workspace has |
| WorkspaceOutcomes.UpdateLeaves | app/domain/workspace.py:93-94 | name and slug are those sent, the name trimmed; owner, logo and every other row are as they were |
| WorkspaceOutcomes.SetLogoSucceedsExactly | app/application/workspaces.py:191-196 | the logo of a live workspace is replaced exactly when the actor may edit it, and nothing else changes |
| WorkspaceOutcomes.DeleteSucceedsExactly | app/application/workspaces.py:206-220 | a workspace is deleted if and only if the actor is its owner, past onboarding and its member, and it is live; a member who is not is refused |
| WorkspaceOutcomes.DeleteLeaves | app/application/workspaces.py:206-220 | afterwards the workspace is marked with the time and its slug is free, no member of it is left, its pending invitations are revoked, exactly those left without any workspace are back at the workspace step, and all else is as it was |
| RoleOutcomes.NewRoleExactly | app/application/workspaces.py:230-252 | a role is created exactly when the actor manages roles and the trimmed name is neither the owner's nor held in the workspace; the refusals say which |
| RoleOutcomes.NewRoleLeaves | app/domain/workspace.py:157-166 | one custom role is new, with the trimmed name and no permission |
| RoleOutcomes.RenameRoleExactly | app/application/workspaces.py:230-252 | likewise a rename, of a role of the workspace that is not its owner's |
| RoleOutcomes.RenameRoleLeaves | app/domain/workspace.py:168-170 | the role has the trimmed name and is otherwise, like every other row, as it was |
| RoleOutcomes.DeleteRoleExactly | app/application/workspaces.py:254-268 | a role goes exactly when no member holds it and no invitation that can still be accepted offers it |
| RoleOutcomes.DeleteRoleLeaves | app/application/workspaces.py:254-268 | with it go its grants and the invitations that offered it, and nothing else |
| RoleOutcomes.SetPermissionsExactly | app/domain/workspace.py:53-58 | permissions are replaced exactly when all of them can be given to a role; an owner action is refused first, an unknown one after |
| RoleOutcomes.SetPermissionsShows | app/application/workspaces.py:270-281 | afterwards the list shown to each member with that role is the set sent, and nobody else's list differs |
| RoleOutcomes.SetMemberRoleExactly | app/application/workspaces.py:298-313 | somebody who manages roles can assign exactly a role of the workspace that is not its owner's to exactly a member who is not the owner |
| RoleOutcomes.SetMemberRoleShows | app/application/workspaces.py:298-313 | afterwards that member is shown what the role grants; no other member row differs |
| MemberOutcomes.RemoveSucceedsExactly | app/application/workspaces.py:315-330 | a member is removed exactly when the actor may and the member is not the owner; the owner and strangers are refused as such |
| MemberOutcomes.RemoveLeaves | app/application/workspaces.py:315-330 | that membership goes and no other; its holder is back at the workspace step exactly if it was the last one and onboarding was complete |
| MemberOutcomes.TransferSucceedsExactly | app/application/workspaces.py:332-354 | a workspace is handed over exactly by its owner to another member |
| MemberOutcomes.TransferLeaves | app/application/workspaces.py:332-354 | the target is the owner and holds the role the owner held; the previous owner holds the workspace's admin role, or a new one with an admin's permissions; no other row differs |
| MemberOutcomes.InviteSucceedsExactly | app/application/workspaces.py:365-386 | inviting succeeds exactly if the actor may invite with that role and the address, in any letter case, is neither a member's nor openly invited |
| MemberOutcomes.InviteLeaves | app/domain/workspace.py:213-232 | one invitation is new, pending, for the lower-cased address, under an id and a token no other one has, open until seven days after it was issued |
| MemberOutcomes.InvitationLastsSevenDays | app/application/workspaces.py:84-100 | at any time within those seven days an account with that address joins with the token |
| MemberOutcomes.JoinFailsExactly | app/application/workspaces.py:84-100 | why an account does not join: it does not exist, no open invitation has the token, or the one that has is for another address; one that expires before it is accepted counts as none |
| MemberOutcomes.RevokeSucceedsExactly | app/application/workspaces.py:400-411 | an invitation is revoked exactly if it is the workspace's and still open; the refusals tell the two apart |
| MemberOutcomes.RevokeLeaves | app/domain/workspace.py:248-251 | it is revoked, open at no moment, and every other row is as it was |
| MemberOutcomes.SpentTokensStaySpent | app/domain/workspace.py:240-256 | a token no pending invitation has is never that of a pending one again, at no later point of any run |
| MemberOutcomes.SpentTokensOpenNothing | app/application/workspaces.py:76-100 | with such a token nobody joins, and registering with it is registering without one |
| MemberOutcomes.RevokedNeverJoins | app/application/workspaces.py:400-411 | after a revocation the token lets nobody in, at no later point of any run |
| MemberOutcomes.InvitationsAreSingleUse | app/application/workspaces.py:84-100 | after somebody joined with a token it lets nobody in, at no later point of any run |
| AccountOutcomes.AddingExactly | app/application/accounts.py:36-89 | an account is added unless its id is in use or somebody has its address in any letter case; the profile step is ahead exactly if the name is blank |
| AccountOutcomes.RegisterExactly | app/application/accounts.py:56-65 | registering with a token joins exactly when it is an open invitation's for that address; with any other it is registering without one |
| AccountOutcomes.RenameExactly | app/domain/user.py:54-58 | naming an account ends its profile step, completing its onboarding exactly if it is a member somewhere; nothing else changes |
| AccountOutcomes.SetAvatarExactly | app/application/accounts.py:120-123 | an existing account has the avatar that was set, and nothing else changes |
| AccountOutcomes.DeleteAccountExactly | app/application/accounts.py:143-164 | an account goes if and only if it owns no live workspace; its memberships and the invitations it sent go with it, and nothing else |
| AccountOutcomes.PurgeRowsExactly | app/infrastructure/db/repositories.py:144-153 | the rows of a deleted workspace go, and no row of one that is live |
| Services.WorkspaceService.Create | app/application/workspaces.py:134-156 | run step by step on the unit of work, it leaves what the use case function says or fails with its error |
| Services.WorkspaceService.AddWorkspace | app/application/workspaces.py:139-148 | adds exactly the workspace, its system roles and its first member, and completes the onboarding of its founder |
| Services.WorkspaceService.AddSystemRoles | app/application/workspaces.py:143-147 | the loop adds exactly the four system roles with their permissions, and the founder as holder of the first |
| Services.WorkspaceService.Update | app/application/workspaces.py:158-171 | as its function says; a slug in use is reported as taken |
| Services.WorkspaceService.Delete | app/application/workspaces.py:206-220 | as its function says: members, pending invitations, slug, deletion time and onboarding |
| Services.WorkspaceService.ReturnToWorkspaceStep | app/application/workspaces.py:442-447 | the loop changes exactly the given people who belong nowhere any more |
| Services.WorkspaceService.SaveRole | app/application/workspaces.py:230-252 | as its function says, for a new role and for a renamed one |
| Services.WorkspaceService.DeleteRole | app/application/workspaces.py:254-268 | as its function says; refused while the role is in use |
| Services.WorkspaceService.SetPermissions | app/application/workspaces.py:270-281 | as its function says: the stored permissions are replaced as a whole |
| Services.WorkspaceService.SetMemberRole | app/application/workspaces.py:298-313 | as its function says |
| Services.WorkspaceService.RemoveMember | app/application/workspaces.py:315-330 | as its function says |
| Services.WorkspaceService.Transfer | app/application/workspaces.py:332-354 | as its function says: roles swapped, owner moved, then checked |
| Services.WorkspaceService.Invite | app/application/workspaces.py:365-386 | as its function says, with the clock read twice |
| Services.WorkspaceService.RevokeInvitation | app/application/workspaces.py:400-411 | as its function says |
| Services.WorkspaceService.Join | app/application/workspaces.py:84-100 | as its function says, with the clock advancing between its two checks; a failure at any point leaves the tables unchanged, even for a caller that swallows it |
| Services.AccountService.Register | app/application/accounts.py:36-65 | as its function says: the account is added unless its id or address is taken, and an invitation that cannot be applied is ignored |
| Services.AccountService.Rename | app/application/accounts.py:95-106 | as its function says: the profile step ends with the rename |
| Services.AccountService.DeleteRow | app/application/accounts.py:143-149 | as its function says: memberships, sent invitations and the account row go |
| MediaRequests.MediaRequests.SetLogo | app/application/workspaces.py:180-204 | after a success the new logo is stored and the previous one gone; after any failure of the transaction or its commit rows and bucket are as before |
| MediaRequests.MediaRequests.SetAvatar | app/application/accounts.py:113-133 | the same for avatars |
| MediaRequests.MediaRequests.DeleteAccount | app/application/accounts.py:135-164 | refused without a trace while the account owns a live workspace; otherwise its deleted workspaces and their files are gone, and then, unless the last transaction fails, its memberships, its invitations, its row and its avatar too; nothing else changes |
| MediaRequests.DroppedFilesExactly | app/application/workspaces.py:191-203 | the files a replaced logo or avatar leaves behind are the ones the rows pointed at, and the workspaces purged with an account are its deleted ones |
| MediaRequests.DeletionLeavesNoReference | app/application/accounts.py:135-151 | afterwards no workspace, live or deleted, no membership and no sent invitation names the account |
| ProductRows.SortedListsDecidePermutation | app/domain/product.py:200-205 | comparing the sorted lists decides exactly whether one is a permutation of the other |
| ProductRows.ReorderExactly | app/domain/product.py:200-207 | reordering succeeds if and only if the ids are a permutation of the held ones, and then changes nothing but order and positions |
| ProductRows.AddKeepsImages | app/domain/product.py:165-188 | an added image comes last; ids, uploads and stored objects stay distinct |
| ProductRows.RemoveKeepsImages | app/domain/product.py:190-198 | only the removed image's objects are given up and the gap closes |
| ProductRows.VersionMovesExactlyOnChange | app/domain/product.py:146-160 | with a clock past the last update, the version moves exactly when some field value changes |
| ProductAggregate.ImageOrderAlways | app/domain/product.py:162-207 | whatever is added under a fresh id, removed and reordered, ids stay distinct and positions are 0 to n-1 in list order |
| ProductAggregate.Product.Update | app/domain/product.py:151-160 | the loop over the changes leaves the row they describe; a change of several fields counts as one |
| ProductAggregate.Product.AddImage | app/domain/product.py:165-188 | changes the object to the row with the image at the end, or refuses and changes nothing |
| ProductAggregate.Product.RemoveImage | app/domain/product.py:190-198 | returns the removed image and renumbers the rest in place |
| ProductAggregate.Product.ReorderImages | app/domain/product.py:200-207 | rearranges and renumbers in place, or refuses and changes nothing |
| CatalogEffects.EveryTransactionOwes | app/application/products.py:80-213 | every transaction locks what it writes, moves keys without losing or sharing one, keeps products well formed, and grows a workspace only under its lock and within its quotas |
| CatalogEffects.ConfirmOwes | app/application/products.py:194-213 | attaching an image takes exactly the two stored files, under the workspace lock, within the byte and image limits |
| CatalogEffects.CreateOwes | app/application/products.py:69-94 | a product is added under a new id, under the workspace lock, while fewer than the limit exist |
| CatalogCommit.GrowthNeedsTheLock | app/application/products.py:215-217 | a commit whose conflict set lacks the row of a live workspace makes that workspace no larger |
| CatalogCommit.RoomIsThere | app/application/products.py:194-217 | a quota check against the snapshot still holds of the database when its transaction passes validation |
| CatalogCommit.StepsKeeps | app/application/products.py:137-170 | every step of every request, in any interleaving, keeps the invariant of database, bucket, log and requests |
| CatalogCommit.InvAlways | app/application/products.py:137-170 | the invariant holds in every state of every run |
| CatalogTheorems.MediaIsConserved | app/application/products.py:137-180 | in every reachable state each key a row points at is stored, each stored object is pointed at by exactly one row or in flight with exactly one request, never both |
| CatalogTheorems.NothingLeaks | app/application/products.py:137-180 | with nothing in flight the bucket holds exactly the keys the rows point at |
| CatalogTheorems.QuotasAlwaysHold | app/application/products.py:194-217 | however requests interleave, a live workspace has at most the allowed products and bytes, and every product at most ten images in contiguous positions |
| CatalogTheorems.NoUpdateIsLost | app/application/products.py:99-114 | of all updates sent with one version of a product that each change a field, at most one commits in the whole run |
| CatalogTheorems.EditsAreVersionedChanges | app/domain/product.py:146-160 | what the log counts as such an update is exactly one that carries a version and changes a field |
| CatalogTheorems.ConfirmAnswersAnAttachedImage | app/application/products.py:137-170 | a confirm that answers with an image, its own or another's after losing the race for the upload key, answers with one that was in the database under that upload key |
| CatalogTheorems.LoserAnswersTheWinner | app/application/products.py:157-168 | in every run, a confirm refused because its upload key is taken ends with the one image of that upload if and only if there is one when it looks, with the refusal otherwise, and none of the files it stored is left |
| ProductOutcomes.UpdateExactly | app/domain/product.py:151-160 | updating a stored product fails exactly for a blank name or a negative price that was sent; else each field has the value sent for it, a field nothing was sent for keeps its value, and the version moves exactly if one differs |
| ProductOutcomes.CreateProductExactly | app/application/products.py:80-94 | a product is created exactly when there is room for one more, it has a name and no negative price; it has the values sent and no images |
| ProductOutcomes.UpdateProductExactly | app/application/products.py:99-114 | an update goes through exactly on a product of the workspace, in the version the client named if it named one, with values a product can have |
| ProductOutcomes.DeleteProductExactly | app/application/products.py:116-125 | exactly a product of the workspace can be deleted, and its files are the ones given up |
| ProductOutcomes.ConfirmExactly | app/application/products.py:194-213 | attaching succeeds if and only if it is a product of the workspace with fewer than ten images, the bytes fit, and no image of it has that upload key; each refusal stands for the first of these that fails |
| ProductOutcomes.ConfirmAppends | app/domain/product.py:165-188 | the images are then the ones there were followed by the new one, with the size, keys and upload key it came with |
| ProductOutcomes.RemoveImageExactly | app/domain/product.py:190-194 | exactly an image the product has can be removed |
| ProductOutcomes.RemoveImageCloses | app/domain/product.py:190-198 | the others stay in their order, renumbered, and exactly its files are given up |
| ProductOutcomes.ReorderImagesExactly | app/application/products.py:182-192 | images are put in the order asked exactly if the ids are those of the images, each once |
| CatalogOutcomes.ProductsAreSound | app/domain/product.py:209-213 | in every state of every run each product has a name and no negative price |
| CatalogOutcomes.ConfirmsAreRefusedExactly | app/application/products.py:194-213 | in a run, a confirm whose snapshot meets those conditions is never refused; one that is says which condition fails, and its files are deleted |
| CatalogOutcomes.CreationsAreRefusedExactly | app/application/products.py:80-94 | a creation whose snapshot has room, with a name and no negative price, is never refused; one that is says which of these is missing |
| CatalogOutcomes.UpdatesLeaveTheValuesSent | app/application/products.py:99-114 | a committed update leaves the product, in the latest database, with the values sent and everything else as it was |
| CatalogOutcomes.ConfirmsLeaveTheImage | app/application/products.py:194-213 | a committed confirm leaves the images the latest database had, followed by the one it answers |
| CatalogOutcomes.CreationsLeaveTheProduct | app/application/products.py:80-94 | a committed creation leaves one product more, with the values sent |
| CatalogOutcomes.PurgeBatchExactly | app/application/purge.py:25-34 | a purge batch takes exactly the products it found with all their files; the purge goes on to the other rows only when those were all the workspace had, and looks again after 200 |
| CatalogOutcomes.BatchesLeaveTheRest | app/application/purge.py:25-34 | a committed batch leaves every other product of the latest database; when the purge goes on to the other rows, none of the products its snapshot showed in the workspace is left |
| CatalogOutcomes.WorkspaceWorkExactly | app/application/workspaces.py:134-354 | when the interleaved transactions on workspaces go through |
| CatalogOutcomes.MemberWorkExactly | app/application/workspaces.py:84-330 | when those on members do |
| CatalogOutcomes.AccountWorkExactly | app/application/accounts.py:36-164 | when those on accounts do; opening one writes nothing exactly if its id or address is taken |
| CatalogAtomic.CommitIsAtomic | app/infrastructure/db/unit_of_work.py:54-79 | a transaction that passes validation could have run on the latest database from start to end, with the same effect, provided the few rows it read without locking still say the same (for a purge: the batch it found is one the latest database could return) |
| CatalogAtomic.ClosingIsAtomicExactly | app/application/accounts.py:143-164 | closing an account would do the same on the latest database if and only if the account still owns no live workspace there and has the memberships it had |
| CatalogAtomic.FoundingIsAtomicExactly | app/application/workspaces.py:138-153 | founding would do the same on the latest database if and only if it wrote its founder's row, or the founder is still there and past onboarding |
| CatalogAtomic.PurgingIsAtomicExactly | app/infrastructure/db/repositories.py:406-423 | a batch of a purge is one the latest database could return, with the same effect, if and only if it is full or holds every product of the workspace by now |
| CatalogMembers.MembersAreHoused | app/application/workspaces.py:84-100 | in every state of every run, each membership is of a live workspace |
| CatalogOwners.CommitKeepsOwnersExactly | app/application/accounts.py:143-164 | from a database where the owner of every live workspace exists, a commit leaves one if and only if it is not a close of an account that owns a live workspace by now, a founding whose founder is gone by now, or a transfer to a member whose account is gone by now |
| CatalogOwners.OwnersExistExactly | app/application/accounts.py:143-164 | in a whole run the owner of every live workspace exists at every moment if and only if no commit is one of those three |
| CatalogOverlaps.OnboardingWritesTheAccount | app/application/workspaces.py:84-100 | founding or joining writes the row of its account exactly when the snapshot shows it still has to complete its onboarding |
| CatalogOverlaps.OwnersExistWithoutOverlap | app/application/workspaces.py:138-153 | as long as no close of an account overlaps its founding or joining past onboarding, in every state of the run members exist, and the owner of every live workspace exists and is its member |
| CatalogOverlaps.OwnersExistWhileOnboarding | app/application/workspaces.py:138-153 | the same in every run in which each founding and joining completes an onboarding, as its snapshot shows |
| CatalogQuotas.CommitKeepsQuotasExactly | app/application/products.py:194-217 | from a database where every workspace, live or deleted, is within its quotas, a commit leaves one if and only if it is not a creation in a workspace that is full by now, and not a confirm whose bytes no longer fit |
| CatalogQuotas.QuotasHoldExactly | app/application/products.py:194-217 | in a whole run every workspace is within its quotas at every moment if and only if no commit is one of those two |
| CatalogQuotas.LockedCommitsFit | app/application/products.py:215-217 | a commit whose snapshot shows the workspace live, so that it locks it, is neither of those two |
| CatalogQuotas.OverfillingIsARetry | app/application/products.py:215-217 | a commit that is one of those two is a later attempt, in a workspace that is not live by then |
| CatalogQuotas.QuotasHoldUnderTheLock | app/application/products.py:194-217 | in every run whose product transactions commit from snapshots that show their workspace live, every workspace is within its quotas in every state |
| CatalogOnboarding.CommitAgreesExactly | app/application/workspaces.py:442-447 | from a database where onboarding agrees with membership, a commit leaves one if and only if nobody it moves is misjudged: the account to complete its onboarding, or the people left without a workspace, are by now those the snapshot showed |
| CatalogOnboarding.OnboardingAgreesExactly | app/application/workspaces.py:442-447 | in a whole run onboarding agrees with membership at every moment if and only if no commit misjudges anybody |
| CatalogOnboarding.CurrentReadsMisjudgeNobody | app/application/workspaces.py:442-447 | a transaction whose unlocked reads still hold misjudges nobody, an account opened under an id that has memberships aside |
| CatalogMembers.PurgesMisjudgeNobody | app/infrastructure/db/repositories.py:144-153 | purging the rows of a deleted workspace never does |
| CatalogAnomaly.ClosingRacesFounding | app/application/accounts.py:143-164 | a run in which a close and a founding of one account, onboarded the ordinary way, are both running on a database where every owner exists; the founding commits, then the close commits, and the new workspace has no owner |
| CatalogAnomaly.DeletedWorkspaceOverfills | app/application/products.py:80-94 | with a limit of one product, a run in which two creations arrive while their workspace is live and empty, it is deleted, both lose that race and try again, both commit, and the deleted workspace holds two |
| CatalogAnomaly.RemovalsMissEachOther | app/application/workspaces.py:315-330 | a run in which two removals of one person, from the two workspaces they are a member of, both commit, and the account is left past onboarding without a workspace |
| Projection.CommandsAreTransactions | app/application/workspaces.py:84-430 | the catalog requests of every command are named; a command that succeeds does to the workspace, account and member rows exactly what its requests do there, run alone with the command's time, next id and keys |
| Projection.CommandsAreRuns | app/application/workspaces.py:84-430 | from any state of the catalog that shows the tables, whatever other requests are under way, and that is about to give out the time, id and key of the command, steps of the machine lead to one that shows the tables after the command |
| ProductServices.ProductService.Create | app/application/products.py:80-94 | run on the session it does what the create transaction of the catalog says, locks included |
| ProductServices.ProductService.Update | app/application/products.py:106-114 | likewise, through the product object |
| ProductServices.ProductService.Delete | app/application/products.py:116-125 | likewise, and after a success exactly the product's files are deleted |
| ProductServices.ProductService.RemoveImage | app/application/products.py:172-180 | likewise, for the files of one image |
| ProductServices.ProductService.Reorder | app/application/products.py:185-189 | likewise |
| ProductServices.ProductService.Attach | app/application/products.py:194-213 | likewise, and the answer is the attached image |
| ProductServices.ProductService.ConfirmImage | app/application/products.py:137-170 | while others commit before the transaction, before its commit and before the lookup: an image that exists already is returned untouched; a success leaves both files and the new image; any other ending leaves neither, and when the upload key was taken it answers with the image of that upload in the database it looks in, if there is one |
| ProductServices.Session.StorageUsed | app/infrastructure/db/repositories.py:351-357 | the loop sums the image sizes of exactly the workspace's products |
| ProductServices.Session.Get | app/infrastructure/db/repositories.py:327-334 | finds a product of the workspace and locks its row |
| ProductServices.LoserAnswersWithTheWinner | app/application/products.py:159-164 | looking the upload key up finds an image of that upload exactly when there is one |
| Transactions.Session.Transaction | app/infrastructure/db/unit_of_work.py:54-79 | the loop ends at the first attempt that does not lose a race, or at the third; a success installs the rows that attempt's work left into the latest database; any error, raised half-way through the work or by the commit, is rolled back, leaves the latest database as it is and is reported as its kind |
| Transactions.TransactionIsOneStep | app/infrastructure/db/unit_of_work.py:54-79 | under what validation promises, the outcome is one run of the work on the latest database with its result, or no change |
| Transactions.GivesUpExactlyAfterThree | app/infrastructure/db/unit_of_work.py:54-79 | the conflict error is raised if and only if all three attempts lost a race |
| Transactions.FailuresAreReported | app/infrastructure/db/unit_of_work.py:54-79 | only serialization failures are tried again, at most twice; an integrity error, wherever it is raised, is reported as a duplicate and any other error as it is, and then the database is as others left it |
| Transactions.DecidedIsUnique | app/infrastructure/db/unit_of_work.py:54-79 | the attempts determine result, number of runs and database |
| CatalogRetry.CatalogCommitsAreValidated | app/infrastructure/db/unit_of_work.py:54-79 | that promise is kept by every catalog transaction that locked something and whose unlocked reads still hold: run on the latest database it would leave what installing its session's rows leaves |
| CatalogRetry.CatalogTransactionIsOneStep | app/infrastructure/db/unit_of_work.py:54-79 | the retry loop over such a transaction succeeds, and result and database are those of one run on the latest database |
| CatalogRetry.LostRacesAreRetried | app/infrastructure/db/unit_of_work.py:65-73 | in the catalog too, a lost race is tried again with the same request and files unless it was the third, which deletes the files and answers the conflict |
| CatalogRetry.GivesUpAfterThreeLosses | app/infrastructure/db/unit_of_work.py:54-79 | in every run a client that gives up has lost three races, each at a step of its own |
| Text.LowerFoldsCase | app/domain/user.py:34 | two addresses are the same once lower-cased exactly if they differ in nothing but letter case |
| Text.StripExactly | app/domain/user.py:31 | trimming takes off the white space at both ends, all of it and nothing else |
| Search.ThreePassesAreOne | app/infrastructure/db/repositories.py:430-438 | the three chained replacements equal one backslash before each special character |
| Search.SearchIsContainment | app/infrastructure/db/repositories.py:430-438 | text matches the search pattern if and only if the folded search string occurs in the folded text |
| Cursors.UnpackUndoesPack | app/infrastructure/db/repositories.py:452-470 | base64 without padding round-trips for all bytes and uses URL-safe characters only |
| Cursors.CursorRoundTrips | app/infrastructure/db/repositories.py:452-470 | a cursor decodes to the position it was made from and is never empty |
| Framings.SomeFramingInverts | app/infrastructure/db/repositories.py:452-470 | there is a framing of positions that reads back what it writes, as the cursor and listing results ask of theirs |
| Listing.Ordering | app/infrastructure/db/repositories.py:441-446 | the order by sort field and id, in either direction, is a strict total order |
| Listing.SortedIsUnique | app/infrastructure/db/repositories.py:441-446 | only one list of the same rows is sorted, so ORDER BY is determined |
| Listing.PagesAreSortAndSlice | app/infrastructure/db/repositories.py:365-378 | the numbered pages 1 to ceil(total/size) concatenate to the sorted matching rows, and every later page is empty |
| Listing.WalkIsTheRest | app/infrastructure/db/repositories.py:380-398 | following cursors from any position lists the matching rows past it, sorted |
| Listing.WalkIsSortAndSlice | app/infrastructure/db/repositories.py:365-398 | following cursors from the start ends and lists exactly what the numbered pages list, each row once, ties included |
| Listing.WalkNeverGoesBack | app/infrastructure/db/repositories.py:380-398 | while rows are inserted, deleted or re-keyed between pages, the sort keys returned strictly increase |
| Listing.SteadyRowsAreShownOnce | app/infrastructure/db/repositories.py:380-398 | and a row that matches throughout with an unchanged sort key is returned exactly once by a completed walk |
| ListedRows.MatchesExactly | app/infrastructure/db/repositories.py:425-439 | a row is listed exactly if it is the workspace's, has the asked status, and its name or sku holds the search string in any letter case |
| ListedRows.PrecedesExactly | app/infrastructure/db/repositories.py:441-446 | one row is before another exactly if its creation time, name, price or status is, or that is equal and its id is smaller; the other way round when descending |
| ListedRows.PagesListExactly | app/infrastructure/db/repositories.py:365-378 | a product is on some numbered page if and only if it is wanted in that sense, and the total counts exactly those |
| ListedRows.PagesAreInOrder | app/infrastructure/db/repositories.py:365-378 | each page is in that order and stands before every later one |
| ListedRows.CursorPagesListExactly | app/infrastructure/db/repositories.py:380-398 | a cursor page has the wanted rows past its cursor in that order, as many as fit; a next cursor comes exactly when some did not; an empty cursor is none |
| Purge.BatchFitsATransaction | app/application/purge.py:9-11 | given at most ten images a product, a batch touches at most 2,200 rows, under the 3,000 a transaction may |
| Purge.PurgeFinishesAndFrames | app/application/purge.py:25-46 | nothing of the purged workspaces is left and every other row is as it was |
| Purge.RerunReachesTheSameRows | app/application/purge.py:25-46 | a purge stopped after any batch and run again leaves the same rows |
| Purge.ImageFilesExactly | app/infrastructure/db/repositories.py:415-420 | the files of some images are exactly their objects and thumbnails |
| Purge.PurgedFilesExactly | app/application/purge.py:25-46 | the files of purged workspaces are exactly those of their products' images and their logos |
| Purge.WorkspacePurge.DeleteBatch | app/infrastructure/db/repositories.py:406-423 | deletes as many of the workspace's products as there are, up to the limit, and returns exactly their keys |
| Purge.WorkspacePurge.PurgeProducts | app/application/purge.py:25-34 | the loop ends with every product of the workspace and its files gone, and nothing else |
| Purge.WorkspacePurge.Purge | app/application/purge.py:25-46 | a deleted workspace is gone with its files; of one that is not deleted only the products go |
| Purge.WorkspacePurge.PurgeAll | app/application/purge.py:19-23 | afterwards no deleted workspace is left, the others are untouched, and the count is right |
| RateLimits.RateLimiter.Hit | app/infrastructure/aws/rate_limiter.py:16-30 | one more hit in the counter of the aligned window, expiry kept, and the verdict on the new count |
| RateLimits.RequestAdmittedExactly | app/infrastructure/aws/rate_limiter.py:16-30 | a request is let through if and only if its client made fewer than max_requests before it in the same aligned window, whatever others do; its counter is kept until a minute after the window |
| RateLimits.WindowAdmitsTheFirst | app/infrastructure/aws/rate_limiter.py:16-30 | each aligned window admits exactly its first max_requests hits |
| RateLimits.IntervalAdmitsAtMostTwice | app/infrastructure/aws/rate_limiter.py:16-30 | any interval of one window length admits at most twice the limit |
| RateLimits.WaitLandsOnTheNextWindow | app/infrastructure/aws/rate_limiter.py:16-30 | a refusal's wait is between 1 and the window length and ends exactly at the next window's start |

## Left out

- HTTP, authentication and schemas; a non-blank profile name and page numbers and sizes of at least 1 are taken from them as preconditions.
- Slug syntax, order parsing, error wording, readable sizes, columns that decide nothing (URLs, content types, join times) and `AccessService.workspace`.
- Mail, change events and the identity pool, which take part in no claim; image decoding and resizing.
- The object-relational session and its identity map: repository calls are operations on maps, and users, workspaces, roles, members and invitations are values that the unit of work replaces in its maps, so aliasing between loaded rows is not captured. Products are objects.
- Letter case and white space beyond ASCII; PostgreSQL collations, text being compared by code point.
- Ids, storage keys and tokens are numbers from increasing sources; the token hash is taken as injective and the slug of a deleted workspace as one nobody can choose.
- CatalogTheorems.NoUpdateIsLost: assumes a clock that is strictly later at every start of a transaction (`Opens`), because the version is the time of the last change; two changes within one tick of a real clock would share it.
- The two files of a confirm are stored all or nothing; the source stores one after the other.
- Deletions of files always succeed; the source logs a failed one and goes on, so the file stays.
- A transfer rewrites the member rows of both people, whose roles `WorkspaceTheorems.SingleOwnerAlways` shows to differ.
- Crashes between a commit and the deletion of files, and commits whose outcome is unknown.
- The database is assumed to count rows read FOR UPDATE as written when it validates a commit, which is how the quota lock works.
- Interleavings of roles, grants and invitations: the use cases that touch them are atomic steps in `Runs`. Those of one workspace lock its row, so the database runs them one at a time; closing an account deletes the invitations it sent and locks no workspace, so one it issues meanwhile can commit as well and name an inviter who is gone. Workspaces, accounts, members and products do interleave, in `Catalog`, which sees those use cases reduced to the rows it has.
- That the slugs and addresses of `Catalog` stay unique: the unique indexes of the database refuse a second one, which is a transaction that breaks.
- That an accepted invitation's `accepted_by` names an existing account: deleting the account leaves it.
- Products inserted into a deleted workspace while it is purged.
- The number of rows the last transaction of a purge deletes, which nothing bounds.
- Cursors a client made up: one that does not decode is an error, but which strings decode is not modelled beyond the ones the server makes. The JSON framing and the text of sort values are assumed to be read back as written.
- Waiting between two attempts of a transaction, and the log.
