/** Translation between the object store's ACL values and the filesystem's
    public/private visibility, through one fixed, ordered table. */
module Acl {

  /** The store's ACL values (OssClient::OSS_ACL_TYPE_*). */
  const PublicRead := "public-read"
  const PublicReadWrite := "public-read-write"
  const Private := "private"

  /** The filesystem's visibility values (Visibility::PUBLIC / PRIVATE). */
  const VisibilityPublic := "public"
  const VisibilityPrivate := "private"

  /** getAclMap: ACL => visibility, in declaration order. Its keys are
      distinct, as those of a PHP array are, and every value is a visibility. */
  function AclMap(): (m: seq<(string, string)>)
    ensures forall i, j :: 0 <= i < j < |m| ==> m[i].0 != m[j].0
    ensures forall i :: 0 <= i < |m| ==> m[i].1 == VisibilityPublic || m[i].1 == VisibilityPrivate
  {
    [(PublicRead, VisibilityPublic), (PublicReadWrite, VisibilityPublic), (Private, VisibilityPrivate)]
  }

  /** The scan in toAcl: the ACL of the first entry whose visibility is
      `visibility`, or `Private` when no entry has it. */
  function FirstAclFor(table: seq<(string, string)>, visibility: string): (acl: string)
    ensures (exists i :: 0 <= i < |table| && table[i].1 == visibility) ==>
      exists i :: 0 <= i < |table| && table[i] == (acl, visibility) &&
        forall k :: 0 <= k < i ==> table[k].1 != visibility
    ensures (forall i :: 0 <= i < |table| ==> table[i].1 != visibility) ==> acl == Private
  {
    if table == [] then Private
    else if table[0].1 == visibility then table[0].0
    else
      var acl := FirstAclFor(table[1..], visibility);
      assert forall i :: 1 <= i < |table| ==> table[i] == table[1..][i - 1];
      acl
  }

  /** The scan in toVisibility: the visibility of the first entry whose ACL is
      `acl`, or `VisibilityPrivate` when no entry has it. */
  function FirstVisibilityFor(table: seq<(string, string)>, acl: string): (visibility: string)
    ensures (exists i :: 0 <= i < |table| && table[i].0 == acl) ==>
      exists i :: 0 <= i < |table| && table[i] == (acl, visibility) &&
        forall k :: 0 <= k < i ==> table[k].0 != acl
    ensures (forall i :: 0 <= i < |table| ==> table[i].0 != acl) ==> visibility == VisibilityPrivate
  {
    if table == [] then VisibilityPrivate
    else if table[0].0 == acl then table[0].1
    else
      var visibility := FirstVisibilityFor(table[1..], acl);
      assert forall i :: 1 <= i < |table| ==> table[i] == table[1..][i - 1];
      visibility
  }

  /** toAcl: only public-read or private ever comes out; public-read-write
      is shadowed by the public-read entry before it. */
  function ToAcl(visibility: string): (acl: string)
    ensures acl == PublicRead || acl == Private
  {
    var t := AclMap();
    assert t[1].1 == t[0].1;
    FirstAclFor(t, visibility)
  }

  /** toVisibility: only public or private ever comes out. */
  function ToVisibility(acl: string): (visibility: string)
    ensures visibility == VisibilityPublic || visibility == VisibilityPrivate
  {
    FirstVisibilityFor(AclMap(), acl)
  }

  /** 'public' becomes public-read, the first matching entry, never
      public-read-write; 'private' becomes private. */
  lemma ToAclOfVisibilities()
    ensures ToAcl(VisibilityPublic) == PublicRead
    ensures ToAcl(VisibilityPrivate) == Private
  {
    var t := AclMap();
    assert t[0].1 == VisibilityPublic;
    assert t[2].1 == VisibilityPrivate;
  }

  /** Any visibility other than 'public' and 'private' falls back to private:
      unknown input never widens access. */
  lemma ToAclDefaultsToPrivate(visibility: string)
    requires visibility != VisibilityPublic && visibility != VisibilityPrivate
    ensures ToAcl(visibility) == Private
  {
  }

  /** Both public ACLs read as public; private reads as private. */
  lemma ToVisibilityOfAcls()
    ensures ToVisibility(PublicRead) == VisibilityPublic
    ensures ToVisibility(PublicReadWrite) == VisibilityPublic
    ensures ToVisibility(Private) == VisibilityPrivate
  {
    var t := AclMap();
    assert t[0].0 == PublicRead && t[1].0 == PublicReadWrite && t[2].0 == Private;
  }

  /** Any ACL outside the table, the bucket-inherited "default" included, reads
      as private. */
  lemma ToVisibilityDefaultsToPrivate(acl: string)
    requires acl != PublicRead && acl != PublicReadWrite && acl != Private
    ensures ToVisibility(acl) == VisibilityPrivate
  {
  }

  /** The two visibilities survive a trip through the ACL table. */
  lemma VisibilityRoundTrip(visibility: string)
    requires visibility == VisibilityPublic || visibility == VisibilityPrivate
    ensures ToVisibility(ToAcl(visibility)) == visibility
  {
    ToAclOfVisibilities();
    ToVisibilityOfAcls();
  }

  /** public-read and private survive a trip through visibility, but
      public-read-write comes back as public-read: the table is not a bijection. */
  lemma AclRoundTrip()
    ensures ToAcl(ToVisibility(PublicRead)) == PublicRead
    ensures ToAcl(ToVisibility(Private)) == Private
    ensures ToAcl(ToVisibility(PublicReadWrite)) == PublicRead != PublicReadWrite
  {
    ToAclOfVisibilities();
    ToVisibilityOfAcls();
  }

  /** Both translations are total and land in the table: toAcl always yields one
      of its ACLs, toVisibility one of its visibilities. */
  lemma TranslationsStayInTable(visibility: string, acl: string)
    ensures exists i :: 0 <= i < |AclMap()| && AclMap()[i].0 == ToAcl(visibility)
    ensures exists i :: 0 <= i < |AclMap()| && AclMap()[i].1 == ToVisibility(acl)
  {
    var t := AclMap();
    if exists i :: 0 <= i < |t| && t[i].1 == visibility {
    } else {
      assert t[2].0 == ToAcl(visibility);
    }
    if exists i :: 0 <= i < |t| && t[i].0 == acl {
    } else {
      assert t[2].1 == ToVisibility(acl);
    }
  }
}
