/** The system group database as the `grp` module sees it: the lines of
    `/etc/group` in file order, looked up by name (`getgrnam`) or by
    numeric id (`getgrgid`), the first matching line winning. */
module Groups {
  import opened Wrappers

  /** One group line; the password and member fields are not modelled. */
  datatype Group = Group(name: string, gid: int)

  /** `grp.getgrnam(name)`; `None` stands for the `KeyError` it raises. */
  function GetGrNam(db: seq<Group>, name: string): (r: Option<Group>)
    ensures r.Some? ==> r.value in db && r.value.name == name
    ensures r.Some? ==> exists k :: 0 <= k < |db| && db[k] == r.value && forall j :: 0 <= j < k ==> db[j].name != name
    ensures r.None? <==> forall k :: 0 <= k < |db| ==> db[k].name != name
  {
    if |db| == 0 then None
    else if db[0].name == name then Some(db[0])
    else GetGrNam(db[1..], name)
  }

  /** `grp.getgrgid(gid)`; `None` stands for the `KeyError` it raises. */
  function GetGrGid(db: seq<Group>, gid: int): (r: Option<Group>)
    ensures r.Some? ==> r.value in db && r.value.gid == gid
    ensures r.Some? ==> exists k :: 0 <= k < |db| && db[k] == r.value && forall j :: 0 <= j < k ==> db[j].gid != gid
    ensures r.None? <==> forall k :: 0 <= k < |db| ==> db[k].gid != gid
  {
    if |db| == 0 then None
    else if db[0].gid == gid then Some(db[0])
    else GetGrGid(db[1..], gid)
  }

  /** The group called `name` exists, and looking its gid back up gives
      that same group: the condition under which comparing group entries
      (lines 100-101 of the script) is the same as comparing gids. */
  predicate OwnsGid(db: seq<Group>, name: string) {
    GetGrNam(db, name).Some? && GetGrGid(db, GetGrNam(db, name).value.gid) == GetGrNam(db, name)
  }

  /** No two lines of the database share a gid. */
  predicate UniqueGids(db: seq<Group>) {
    forall i, j :: 0 <= i < j < |db| ==> db[i].gid != db[j].gid
  }

  /** In a database without shared gids every existing group owns its gid. */
  lemma UniqueGidsOwn(db: seq<Group>, name: string)
    requires UniqueGids(db) && GetGrNam(db, name).Some?
    ensures OwnsGid(db, name)
  {
    var g := GetGrNam(db, name).value;
    var h := GetGrGid(db, g.gid).value;
    var i :| 0 <= i < |db| && db[i] == g;
    var j :| 0 <= j < |db| && db[j] == h;
    assert i == j;
  }

  /** The script decides that a pin directory already has the right group
      when `getgrnam(group) == getgrgid(st_gid)`; when the group owns its
      gid this holds exactly when `st_gid` is the group's gid. */
  lemma SameGroupIffSameGid(db: seq<Group>, name: string, gid: int)
    requires OwnsGid(db, name)
    ensures GetGrGid(db, gid) == GetGrNam(db, name) <==> gid == GetGrNam(db, name).value.gid
  {
  }
}
