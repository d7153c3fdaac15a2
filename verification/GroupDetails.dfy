/** The details of group change messages. */
module GroupDetails {
  import opened Options
  import opened ServiceIds

  datatype Detail =
    | AccessAttributes(newPrivilege: nat)
    | AccessMembers(newPrivilege: nat)
    | AccessInviteLink(newPrivilege: nat)
    | GroupLinkAdd(privilege: nat)
    | GroupLinkRemove
    | GroupLinkReset
    | AvatarChange(removed: bool)
    | Title(newTitle: Option<string>)
    | Description(removed: bool, description: Option<string>)
    | AnnouncementsOnly(announcementsOnly: bool)
    | MemberAddFromInvite(aci: Aci, inviter: Option<Aci>)
    | MemberAddFromLink(aci: Aci)
    | MemberAddFromAdminApproval(aci: Aci)
    | MemberAdd(aci: Aci)
    | MemberPrivilege(aci: Aci, role: nat)
    | MemberRemove(aci: Aci)
    | PendingAddOne(serviceId: ServiceId)
    | PendingAddMany(count: nat)
    | PendingRemoveOne(serviceId: ServiceId, inviter: Option<Aci>)
    | PendingRemoveMany(count: nat, inviter: Option<Aci>)
    | ApprovalAddOne(aci: Aci)
    | ApprovalRemoveOne(aci: Aci)
    | ApprovalBounce(aci: Aci, times: nat, isApprovalPending: bool)
    | Create
    | Summary
}
