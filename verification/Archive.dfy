/**
 Archive inspection and extraction (rlvr/v3/archive.py) over a file system that is a map from
 paths to nodes. Decompression and the tar format itself are not part of this model.
 */
module Archive {
  import opened Seqs
  import opened Unicode

  type Path = seq<Text>

  datatype Kind = File | Directory | Unsupported

  /** A tar member; `data` is what reading it yields, None when it cannot be read. */
  datatype Member = Member(name: Text, kind: Kind, size: int, executable: bool, data: Option<Bytes>)

  datatype Limits = Limits(maxExpandedBytes: nat, maxFileBytes: nat, maxEntries: nat, maxPathBytes: nat)

  const SLASH: nat := 47
  const BACKSLASH: nat := 92
  const DOT: Text := [46]
  const DOT_DOT: Text := [46, 46]

  // ---- Names ------------------------------------------------------------------------------------

  predicate Plain(segment: Text) {
    segment != [] && segment != DOT && segment != DOT_DOT
  }

  ghost predicate AllPlain(path: Path) {
    forall i :: 0 <= i < |path| ==> Plain(path[i])
  }

  predicate SafeName(name: Text, limits: Limits, nfc: Text -> bool) {
    && nfc(name) && Scalars(name)
    && |EncodeUtf8(name)| <= limits.maxPathBytes
    && 0 !in name && BACKSLASH !in name && !(name != [] && name[0] == SLASH)
  }

  /** `_validate_name`: the segments, unless the name is refused. */
  function ValidateName(name: Text, limits: Limits, nfc: Text -> bool): (r: Option<Path>)
    ensures r.Some? ==> r.value == Split(name, SLASH) && AllPlain(r.value)
  {
    if !SafeName(name, limits, nfc) then None
    else if exists i :: 0 <= i < |Split(name, SLASH)| && !Plain(Split(name, SLASH)[i]) then None
    else Some(Split(name, SLASH))
  }

  /** No part is empty, a dot or two dots. */
  ghost predicate PlainParts(parts: seq<Text>) {
    forall part :: part in parts ==> part != [] && part != [46] && part != [46, 46]
  }

  /** Which names are taken: normalised text of bounded size, without a null or a backslash, whose
      parts between slashes are plain. A leading slash leaves an empty part. */
  lemma NameExactly(name: Text, limits: Limits, nfc: Text -> bool)
    ensures ValidateName(name, limits, nfc).Some? <==>
              && nfc(name) && Scalars(name) && |EncodeUtf8(name)| <= limits.maxPathBytes
              && 0 !in name && 92 !in name && PlainParts(Split(name, 47))
  {
    PartsAreSegments(Split(name, SLASH));
    if name != [] && name[0] == SLASH {
      SplitLeading(name);
      assert [] in Split(name, 47);
    }
    hide Split, Plain, Scalars, EncodeUtf8;
  }

  lemma PartsAreSegments(parts: seq<Text>)
    ensures (forall i :: 0 <= i < |parts| ==> Plain(parts[i])) <==> PlainParts(parts)
  {
    if PlainParts(parts) {
      forall i | 0 <= i < |parts| ensures Plain(parts[i]) {
        assert parts[i] in parts;
      }
    }
    if forall i :: 0 <= i < |parts| ==> Plain(parts[i]) {
      forall part | part in parts ensures part != [] && part != [46] && part != [46, 46] {
        var i :| 0 <= i < |parts| && parts[i] == part;
        assert Plain(parts[i]);
      }
    }
  }

  lemma SplitLeading(name: Text)
    requires name != [] && name[0] == SLASH
    ensures [] in Split(name, SLASH)
  {
    assert Split(name, SLASH)[0] == [];
  }

  // ---- Inspection -------------------------------------------------------------------------------

  function PathOf(m: Member): Path {
    Split(m.name, SLASH)
  }

  function PathsOf(members: seq<Member>): seq<Path> {
    Map(members, PathOf)
  }

  function FileBytes(members: seq<Member>): int {
    if members == [] then 0
    else
      var n := |members| - 1;
      FileBytes(members[..n]) + if members[n].kind.File? then members[n].size else 0
  }

  predicate MemberOk(m: Member, limits: Limits, nfc: Text -> bool) {
    && !m.kind.Unsupported?
    && ValidateName(m.name, limits, nfc).Some?
    && (m.kind.File? ==> 0 <= m.size <= limits.maxFileBytes)
  }

  predicate ProperPrefix(p: Path, q: Path) {
    |p| < |q| && q[..|p|] == p
  }

  ghost predicate NoFileParents(members: seq<Member>) {
    forall m, n :: m in members && n in members && m.kind.File? ==> !ProperPrefix(PathOf(m), PathOf(n))
  }

  ghost predicate FilesAreLeaves(paths: map<Path, bool>) {
    forall p, q :: p in paths && q in paths && paths[p] ==> p == [] || !ProperPrefix(p, q)
  }

  /** Distinct paths, and no file on the way to another member. */
  ghost predicate Compatible(members: seq<Member>) {
    && NoDup(PathsOf(members))
    && (forall m :: m in members ==> !m.kind.Unsupported? && AllPlain(PathOf(m)))
    && NoFileParents(members)
  }

  ghost predicate Accepted(members: seq<Member>, limits: Limits, nfc: Text -> bool) {
    && |members| <= limits.maxEntries
    && (forall m :: m in members ==> MemberOk(m, limits, nfc))
    && FileBytes(members) <= limits.maxExpandedBytes
    && Compatible(members)
  }

  /** `paths` maps the path of each of the members to whether it is a file. */
  ghost predicate Recorded(members: seq<Member>, paths: map<Path, bool>) {
    && NoDup(PathsOf(members))
    && paths.Keys == ToSet(PathsOf(members))
    && forall m :: m in members ==> PathOf(m) in paths && paths[PathOf(m)] == m.kind.File?
  }

  lemma RecordOne(members: seq<Member>, paths: map<Path, bool>, m: Member)
    requires Recorded(members, paths)
    ensures PathOf(m) !in paths ==> Recorded(members + [m], paths[PathOf(m) := m.kind.File?])
    ensures PathOf(m) in paths ==> !NoDup(PathsOf(members + [m]))
  {
    hide PathOf;
    var all := members + [m];
    assert PathsOf(all) == PathsOf(members) + [PathOf(m)];
    AddLast(PathsOf(members), PathOf(m));
    forall k | k in members ensures PathOf(k) in ToSet(PathsOf(members)) {
      var i :| 0 <= i < |members| && members[i] == k;
      assert PathsOf(members)[i] == PathOf(k);
    }
  }

  /** The second loop: no recorded file is a proper prefix of a recorded path. */
  method ParentsAreDirectories(paths: map<Path, bool>) returns (ok: bool)
    ensures ok <==> FilesAreLeaves(paths)
  {
    var todo := paths.Keys;
    while todo != {}
      invariant todo <= paths.Keys
      invariant forall p, q :: p in paths && q in paths.Keys - todo && paths[p] ==> p == [] || !ProperPrefix(p, q)
      decreases |todo|
    {
      var path :| path in todo;
      var depth := 1;
      while depth < |path|
        invariant forall p :: p in paths && paths[p] && |p| < depth ==> p == [] || !ProperPrefix(p, path)
      {
        if path[..depth] in paths && paths[path[..depth]] {
          assert ProperPrefix(path[..depth], path);
          return false;
        }
        depth := depth + 1;
      }
      todo := todo - {path};
    }
    return true;
  }

  lemma RecordedParents(members: seq<Member>, paths: map<Path, bool>)
    requires Recorded(members, paths)
    ensures FilesAreLeaves(paths) <==> NoFileParents(members)
  {
    hide ProperPrefix;
    if NoFileParents(members) {
      forall p, q | p in paths && q in paths && paths[p] ensures !ProperPrefix(p, q) {
        var i :| 0 <= i < |members| && PathsOf(members)[i] == p;
        var j :| 0 <= j < |members| && PathsOf(members)[j] == q;
        assert members[i] in members && members[j] in members;
      }
    }
    if FilesAreLeaves(paths) {
      forall m, n | m in members && n in members && m.kind.File? ensures !ProperPrefix(PathOf(m), PathOf(n)) {
        assert PathOf(m) in paths && PathOf(n) in paths;
      }
    }
  }

  lemma {:induction false} BytesGrow(members: seq<Member>, n: nat)
    requires n <= |members| && forall m :: m in members && m.kind.File? ==> m.size >= 0
    ensures FileBytes(members[..n]) <= FileBytes(members)
    decreases |members|
  {
    if n == |members| {
      assert members[..n] == members;
    } else {
      var last := |members| - 1;
      BytesGrow(members[..last], n);
      assert members[..last][..n] == members[..n];
      assert members[last] in members;
    }
  }

  /** The first i members passed the loop. */
  ghost predicate PassedSoFar(members: seq<Member>, i: nat, limits: Limits, nfc: Text -> bool, paths: map<Path, bool>,
      fileBytes: int) {
    && i <= |members| && i <= limits.maxEntries
    && Recorded(members[..i], paths)
    && fileBytes == FileBytes(members[..i]) <= limits.maxExpandedBytes
    && forall k :: 0 <= k < i ==> MemberOk(members[k], limits, nfc)
  }

  function BytesWith(m: Member, fileBytes: int): int {
    if m.kind.File? then fileBytes + m.size else fileBytes
  }

  lemma NextPasses(members: seq<Member>, i: nat, limits: Limits, nfc: Text -> bool, paths: map<Path, bool>,
      fileBytes: int)
    requires PassedSoFar(members, i, limits, nfc, paths, fileBytes) && i < |members|
    requires i < limits.maxEntries && MemberOk(members[i], limits, nfc) && PathOf(members[i]) !in paths
    requires BytesWith(members[i], fileBytes) <= limits.maxExpandedBytes
    ensures PassedSoFar(members, i + 1, limits, nfc, paths[PathOf(members[i]) := members[i].kind.File?],
        BytesWith(members[i], fileBytes))
  {
    hide Recorded, MemberOk, PathOf, FileBytes, BytesWith;
    RecordOne(members[..i], paths, members[i]);
    BytesStep(members, i);
    assert members[..i + 1] == members[..i] + [members[i]];
  }

  lemma BytesStep(members: seq<Member>, i: nat)
    requires i < |members|
    ensures FileBytes(members[..i + 1]) == BytesWith(members[i], FileBytes(members[..i]))
  {
    assert members[..i + 1][..i] == members[..i];
  }

  lemma NextRefuses(members: seq<Member>, i: nat, limits: Limits, nfc: Text -> bool, paths: map<Path, bool>,
      fileBytes: int)
    requires PassedSoFar(members, i, limits, nfc, paths, fileBytes) && i < |members|
    requires i >= limits.maxEntries || !MemberOk(members[i], limits, nfc) || PathOf(members[i]) in paths
             || BytesWith(members[i], fileBytes) > limits.maxExpandedBytes
    ensures !Accepted(members, limits, nfc)
  {
    if Accepted(members, limits, nfc) {
      assert members[i] in members;
      NewBytesFit(members, i, limits, nfc, fileBytes);
      NewPathFits(members, i, paths);
      hide Compatible, MemberOk, Recorded, PathOf, FileBytes, BytesWith;
    }
  }

  lemma NewPathFits(members: seq<Member>, i: nat, paths: map<Path, bool>)
    requires i < |members| && NoDup(PathsOf(members)) && Recorded(members[..i], paths)
    ensures PathOf(members[i]) !in paths
  {
    hide PathOf;
    forall k | 0 <= k < i ensures PathsOf(members[..i])[k] != PathOf(members[i]) {
      assert PathsOf(members)[k] != PathsOf(members)[i];
    }
  }

  lemma NewBytesFit(members: seq<Member>, i: nat, limits: Limits, nfc: Text -> bool, fileBytes: int)
    requires i < |members| && Accepted(members, limits, nfc) && fileBytes == FileBytes(members[..i])
    ensures BytesWith(members[i], fileBytes) <= limits.maxExpandedBytes
  {
    SizesAreNatural(members, limits, nfc);
    hide MemberOk, Compatible, FileBytes, BytesWith;
    BytesGrow(members, i + 1);
    BytesStep(members, i);
  }

  lemma SizesAreNatural(members: seq<Member>, limits: Limits, nfc: Text -> bool)
    requires Accepted(members, limits, nfc)
    ensures forall m :: m in members && m.kind.File? ==> m.size >= 0
  {
    forall m | m in members && m.kind.File? ensures m.size >= 0 {
      assert MemberOk(m, limits, nfc);
    }
  }

  lemma AllPassed(members: seq<Member>, limits: Limits, nfc: Text -> bool, paths: map<Path, bool>, fileBytes: int)
    requires PassedSoFar(members, |members|, limits, nfc, paths, fileBytes)
    ensures fileBytes == FileBytes(members)
    ensures FilesAreLeaves(paths) <==> Accepted(members, limits, nfc)
  {
    PassedFacts(members, limits, nfc, paths, fileBytes);
    EachPassed(members, limits, nfc, paths, fileBytes);
    hide FileBytes, MemberOk, PathOf, AllPlain, PassedSoFar, FilesAreLeaves, NoFileParents, PathsOf, NoDup, Recorded;
    RecordedParents(members, paths);
    assert Compatible(members) <==> NoFileParents(members);
    hide Compatible;
  }

  lemma PassedFacts(members: seq<Member>, limits: Limits, nfc: Text -> bool, paths: map<Path, bool>, fileBytes: int)
    requires PassedSoFar(members, |members|, limits, nfc, paths, fileBytes)
    ensures Recorded(members, paths) && NoDup(PathsOf(members)) && |members| <= limits.maxEntries
    ensures fileBytes == FileBytes(members) <= limits.maxExpandedBytes
  {
    hide MemberOk, FileBytes;
    assert members[..|members|] == members;
  }

  lemma EachPassed(members: seq<Member>, limits: Limits, nfc: Text -> bool, paths: map<Path, bool>, fileBytes: int)
    requires PassedSoFar(members, |members|, limits, nfc, paths, fileBytes)
    ensures forall m :: m in members ==> MemberOk(m, limits, nfc)
    ensures forall m :: m in members ==> !m.kind.Unsupported? && AllPlain(PathOf(m))
  {
    forall m | m in members ensures MemberOk(m, limits, nfc) {
      var k :| 0 <= k < |members| && members[k] == m;
      assert MemberOk(members[k], limits, nfc);
    }
  }

  /** `_inspect_members`: the number of file bytes, or None when the archive is refused. */
  method InspectMembers(members: seq<Member>, limits: Limits, nfc: Text -> bool) returns (r: Option<int>)
    ensures r == if Accepted(members, limits, nfc) then Some(FileBytes(members)) else None
  {
    var paths: map<Path, bool> := map[];
    var fileBytes := 0;
    assert PassedSoFar(members, 0, limits, nfc, paths, fileBytes);
    hide PassedSoFar, Accepted, SafeName;
    for i := 0 to |members|
      invariant PassedSoFar(members, i, limits, nfc, paths, fileBytes)
    {
      var m := members[i];
      if i >= limits.maxEntries {
        NextRefuses(members, i, limits, nfc, paths, fileBytes);
        return None;
      }
      if m.kind.Unsupported? {
        NextRefuses(members, i, limits, nfc, paths, fileBytes);
        return None;
      }
      var segments := ValidateName(m.name, limits, nfc);
      if segments.None? || segments.value in paths {
        NextRefuses(members, i, limits, nfc, paths, fileBytes);
        return None;
      }
      if m.kind.File? && (m.size < 0 || m.size > limits.maxFileBytes || fileBytes + m.size > limits.maxExpandedBytes) {
        NextRefuses(members, i, limits, nfc, paths, fileBytes);
        return None;
      }
      if m.kind.Directory? {
        LimitHolds(members, i, limits, nfc, paths, fileBytes);
      }
      NextPasses(members, i, limits, nfc, paths, fileBytes);
      fileBytes := BytesWith(m, fileBytes);
      paths := paths[segments.value := m.kind.File?];
    }
    AllPassed(members, limits, nfc, paths, fileBytes);
    var ok := ParentsAreDirectories(paths);
    hide ProperPrefix;
    return if ok then Some(fileBytes) else None;
  }

  lemma LimitHolds(members: seq<Member>, i: nat, limits: Limits, nfc: Text -> bool, paths: map<Path, bool>,
      fileBytes: int)
    requires PassedSoFar(members, i, limits, nfc, paths, fileBytes)
    ensures fileBytes <= limits.maxExpandedBytes
  {
  }
}
