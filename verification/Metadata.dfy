/** The metadata stored with an audit event loses nothing of the fact. */
module Metadata {
  import opened Domain
  import Secrets

  ghost predicate ShowsApart(show: nat -> string) {
    forall x, y :: show(x) == show(y) ==> x == y
  }

  lemma ScalarsReadBack(names: seq<string>, xs: seq<string>, ys: seq<string>)
    requires |names| == |xs| == |ys| && Secrets.Fields(names, xs) == Secrets.Fields(names, ys)
    ensures xs == ys
  {
    forall i | 0 <= i < |xs| ensures xs[i] == ys[i] {
      assert Secrets.Fields(names, xs).entries[i] == Secrets.Fields(names, ys).entries[i];
    }
  }

  lemma ListReadsBack(xs: seq<string>, ys: seq<string>)
    requires Secrets.LeafList(xs) == Secrets.LeafList(ys)
    ensures xs == ys
  {
    assert |Secrets.LeafList(xs).items| == |xs| && |Secrets.LeafList(ys).items| == |ys|;
    forall i | 0 <= i < |xs| ensures xs[i] == ys[i] {
      assert Secrets.LeafList(xs).items[i] == Secrets.LeafList(ys).items[i];
    }
  }

  lemma ChangedReadsBack(xs: seq<string>, ys: seq<string>)
    requires Secrets.ChangedFields(xs) == Secrets.ChangedFields(ys)
    ensures xs == ys
  {
    assert Secrets.ChangedFields(xs).entries[0] == Secrets.ChangedFields(ys).entries[0];
    ListReadsBack(xs, ys);
  }

  lemma RoleTextReadsBack(role: Role, other: Role)
    requires RoleText(role) == RoleText(other)
    ensures role == other
  {
    assert RoleText(role)[0] == RoleText(other)[0];
  }

  lemma StatusTextReadsBack(status: ProjectStatus, other: ProjectStatus)
    requires StatusText(status) == StatusText(other)
    ensures status == other
  {
    assert |StatusText(status)| == |StatusText(other)|;
  }

  /** Two facts of the same action with the same metadata are the same fact, as long as different ids
      are printed differently. */
  lemma MetadataTellsFactsApart(show: nat -> string, fact: Fact, other: Fact)
    requires ShowsApart(show) && ActionOf(fact) == ActionOf(other)
    requires Secrets.MetadataOf(show, fact) == Secrets.MetadataOf(show, other)
    ensures fact == other
  {
    hide RoleText, StatusText;
    match fact
    case OrganisationUpdated(fields) => ChangedReadsBack(fields, other.changedFields);
    case ProjectUpdated(fields) => ChangedReadsBack(fields, other.changedFields);
    case MemberAdded(u, role) => MemberReadsBack(show, u, role, other.user, other.role);
    case MemberRemoved(u, role) => MemberReadsBack(show, u, role, other.user, other.role);
    case MemberRoleChanged(u, was, role) => RolesReadBack(show, u, was, role, other.user, other.oldRole, other.newRole);
    case ProjectCreated(name, status) =>
      var xs, ys := [name, StatusText(status)], [other.name, StatusText(other.status)];
      ScalarsReadBack(["project_name", "status"], xs, ys);
      assert xs[0] == ys[0] && xs[1] == ys[1];
      StatusTextReadsBack(status, other.status);
    case ProjectDeleted(name) =>
      ScalarsReadBack(["project_name"], [name], [other.name]);
      assert [name][0] == [other.name][0];
    case ApiKeyCreated(name, prefix) => NamesReadBack(name, prefix, other.name, other.prefix);
    case ApiKeyRevoked(name, prefix) => NamesReadBack(name, prefix, other.name, other.prefix);
    case _ =>
  }

  lemma MemberReadsBack(show: nat -> string, u: UserId, role: Role, v: UserId, other: Role)
    requires ShowsApart(show)
    requires Secrets.Fields(["user_id", "role"], [show(u), RoleText(role)])
             == Secrets.Fields(["user_id", "role"], [show(v), RoleText(other)])
    ensures u == v && role == other
  {
    hide RoleText;
    var xs, ys := [show(u), RoleText(role)], [show(v), RoleText(other)];
    ScalarsReadBack(["user_id", "role"], xs, ys);
    assert xs[0] == ys[0] && xs[1] == ys[1];
    RoleTextReadsBack(role, other);
  }

  lemma RolesReadBack(show: nat -> string, u: UserId, was: Role, role: Role, v: UserId, wasOther: Role, other: Role)
    requires ShowsApart(show)
    requires var names := ["user_id", "old_role", "new_role"];
             Secrets.Fields(names, [show(u), RoleText(was), RoleText(role)])
             == Secrets.Fields(names, [show(v), RoleText(wasOther), RoleText(other)])
    ensures u == v && was == wasOther && role == other
  {
    hide RoleText;
    var xs, ys := [show(u), RoleText(was), RoleText(role)], [show(v), RoleText(wasOther), RoleText(other)];
    ScalarsReadBack(["user_id", "old_role", "new_role"], xs, ys);
    assert xs[0] == ys[0] && xs[1] == ys[1] && xs[2] == ys[2];
    RoleTextReadsBack(was, wasOther);
    RoleTextReadsBack(role, other);
  }

  lemma NamesReadBack(name: string, prefix: string, otherName: string, otherPrefix: string)
    requires Secrets.Fields(["api_key_name", "key_prefix"], [name, prefix])
             == Secrets.Fields(["api_key_name", "key_prefix"], [otherName, otherPrefix])
    ensures name == otherName && prefix == otherPrefix
  {
    ScalarsReadBack(["api_key_name", "key_prefix"], [name, prefix], [otherName, otherPrefix]);
    assert [name, prefix][0] == [otherName, otherPrefix][0] && [name, prefix][1] == [otherName, otherPrefix][1];
  }
}
