/**
 * Role lists as `User` stores and reports them (src/Entity/User.php) and as
 * registration extracts them from the form (src/Controller/RegistrationController.php).
 */
module Roles {
  import opened Wrappers
  import opened Collections
  import Text

  const RoleUser := "ROLE_USER"
  const RolePrefix := "ROLE_"

  /** `s` with every occurrence of `x` dropped. */
  function Drop(s: seq<string>, x: string): (r: seq<string>)
    ensures x !in r
    ensures forall i :: 0 <= i < |r| ==> r[i] in s
    ensures forall i :: 0 <= i < |s| && s[i] != x ==> s[i] in r
    ensures |r| <= |s|
  {
    if s == [] then []
    else if s[0] == x then Drop(s[1..], x)
    else [s[0]] + Drop(s[1..], x)
  }

  /**
   * `array_unique`: every value once, at the place of its first occurrence.
   */
  function Unique(s: seq<string>): (r: seq<string>)
    ensures forall i :: 0 <= i < |r| ==> r[i] in s
    ensures forall i :: 0 <= i < |s| ==> s[i] in r
    ensures NoDuplicates(r)
    ensures |r| <= |s|
    decreases |s|
  {
    if s == [] then []
    else
      var rest := Unique(Drop(s[1..], s[0]));
      assert s[0] !in rest;
      [s[0]] + rest
  }

  /** The position of the first occurrence of `x` in `s`. */
  function IndexOf(s: seq<string>, x: string): (k: nat)
    requires x in s
    ensures k < |s| && s[k] == x
    ensures forall i :: 0 <= i < k ==> s[i] != x
  {
    if s[0] == x then 0 else 1 + IndexOf(s[1..], x)
  }

  /** Dropping `z` keeps the order in which the remaining values first occur. */
  lemma {:induction false} DropKeepsOrder(t: seq<string>, z: string, x: string, y: string)
    requires x in Drop(t, z) && y in Drop(t, z)
    ensures x in t && y in t
    ensures IndexOf(Drop(t, z), x) < IndexOf(Drop(t, z), y) <==> IndexOf(t, x) < IndexOf(t, y)
  {
    var d := Drop(t, z);
    assert d[IndexOf(d, x)] in t && d[IndexOf(d, y)] in t;
    if t[0] == z {
      assert d == Drop(t[1..], z);
      DropKeepsOrder(t[1..], z, x, y);
    } else {
      assert d == [t[0]] + Drop(t[1..], z);
      if x != t[0] && y != t[0] {
        assert x in Drop(t[1..], z) && y in Drop(t[1..], z);
        DropKeepsOrder(t[1..], z, x, y);
      }
    }
  }

  /**
   * `array_unique` keeps each value at its first occurrence: the values of
   * `Unique(s)` come in the order in which they first occur in `s`.
   */
  lemma {:induction false} UniqueKeepsFirstOrder(s: seq<string>)
    ensures forall i, j :: 0 <= i < j < |Unique(s)| ==> IndexOf(s, Unique(s)[i]) < IndexOf(s, Unique(s)[j])
    decreases |s|
  {
    if s != [] {
      var d := Drop(s[1..], s[0]);
      var rest := Unique(d);
      var r := Unique(s);
      assert r == [s[0]] + rest;
      assert s[0] !in rest;
      UniqueKeepsFirstOrder(d);
      forall i, j | 0 <= i < j < |r|
        ensures IndexOf(s, r[i]) < IndexOf(s, r[j])
      {
        assert r[j] == rest[j - 1] && rest[j - 1] in d;
        if i > 0 {
          assert r[i] == rest[i - 1] && rest[i - 1] in d;
          DropKeepsOrder(s[1..], s[0], r[i], r[j]);
        }
      }
    }
  }

  /** `getRoles()`: the stored roles plus ROLE_USER, without repeats. */
  function EffectiveRoles(stored: seq<string>): (r: seq<string>)
    ensures RoleUser in r
    ensures forall x :: x in stored ==> x in r
    ensures forall x :: x in r ==> x in stored || x == RoleUser
    ensures NoDuplicates(r)
  {
    var all := stored + [RoleUser];
    assert all[|stored|] == RoleUser;
    assert forall i :: 0 <= i < |stored| ==> all[i] == stored[i];
    Unique(all)
  }

  /** The first element of `s` other than `x`, if any. */
  function FirstOther(s: seq<string>, x: string): (r: Option<string>)
    ensures r.Some? ==> r.value in s && r.value != x
    ensures r.None? <==> forall i :: 0 <= i < |s| ==> s[i] == x
  {
    if s == [] then None
    else if s[0] != x then Some(s[0])
    else FirstOther(s[1..], x)
  }

  /** `getMainRole()`: the first effective role that is not ROLE_USER, or null. */
  function MainRole(stored: seq<string>): Option<string> {
    FirstOther(EffectiveRoles(stored), RoleUser)
  }

  /** Dropping `y` from a list does not change its first element other than `x`, when `y` is `x`. */
  lemma {:induction false} FirstOtherDrop(s: seq<string>, x: string)
    ensures FirstOther(Drop(s, x), x) == FirstOther(s, x)
  {
    if s != [] {
      FirstOtherDrop(s[1..], x);
    }
  }

  /** Removing repeats does not change which element other than `x` comes first. */
  lemma {:induction false} FirstOtherUnique(s: seq<string>, x: string)
    ensures FirstOther(Unique(s), x) == FirstOther(s, x)
    decreases |s|
  {
    if s != [] {
      var rest := Drop(s[1..], s[0]);
      assert Unique(s) == [s[0]] + Unique(rest);
      if s[0] == x {
        FirstOtherUnique(rest, x);
        FirstOtherDrop(s[1..], x);
      }
    }
  }

  /**
   * The main role is the first stored role other than ROLE_USER: the ROLE_USER
   * that `getRoles()` appends and the repeats it removes never change it.
   */
  lemma MainRoleIsFirstStored(stored: seq<string>)
    ensures MainRole(stored) == FirstOther(stored, RoleUser)
    ensures MainRole(stored).Some? ==> MainRole(stored).value in stored
    ensures MainRole(stored).None? <==> forall i :: 0 <= i < |stored| ==> stored[i] == RoleUser
  {
    var all := stored + [RoleUser];
    FirstOtherUnique(all, RoleUser);
    FirstOtherAppend(stored, RoleUser);
  }

  lemma {:induction false} FirstOtherAppend(s: seq<string>, x: string)
    ensures FirstOther(s + [x], x) == FirstOther(s, x)
  {
    if s == [] {
      assert [x][1..] == [];
    } else {
      assert (s + [x])[1..] == s[1..] + [x];
      FirstOtherAppend(s[1..], x);
    }
  }

  /** `setMainRole`: upper-case the name and prefix ROLE_ when it is missing. */
  function NormalizeRole(role: string): (r: string)
    ensures Text.StartsWith(r, RolePrefix)
    ensures Text.Upper(r) == r
    ensures Text.StartsWith(Text.Upper(role), RolePrefix) ==> r == Text.Upper(role)
    ensures !Text.StartsWith(Text.Upper(role), RolePrefix) ==> r == RolePrefix + Text.Upper(role)
  {
    var upper := Text.Upper(role);
    Text.UpperIdempotent(role);
    if Text.StartsWith(upper, RolePrefix) then upper
    else
      Text.UpperFixed(RolePrefix + upper);
      RolePrefix + upper
  }

  /** Normalising a normalised role changes nothing. */
  lemma NormalizeRoleIdempotent(role: string)
    ensures NormalizeRole(NormalizeRole(role)) == NormalizeRole(role)
  {
  }

  /** The `roles` form field as it reaches the controller: one value or a list of values. */
  datatype RoleField = Scalar(role: string) | Choices(roles: seq<string>)

  /**
   * The role registration stores: a single value as it is, otherwise the first
   * chosen value, or ROLE_USER when nothing was chosen.
   */
  function ExtractRole(field: RoleField): (r: string)
    ensures field.Scalar? ==> r == field.role
    ensures field.Choices? ==> (r == RoleUser && field.roles == []) || (field.roles != [] && r == field.roles[0])
  {
    match field
    case Scalar(role) => role
    case Choices(roles) => if roles == [] then RoleUser else roles[0]
  }
}
