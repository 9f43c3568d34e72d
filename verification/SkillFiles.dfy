// The retrieval skill in the agent's skill root: its directory and file, the description of
// its category, and the copy that earlier releases left at the root itself.

module SkillFiles {
  type Bytes = string

  datatype Dir = NoDir | DirLink | OddDir | RealDir(secure: bool)

  datatype FileAt = NoFile | FileLink | OddFile | RealFile(bytes: Bytes, secure: bool)

  // The superseded place: a link, behind which a skill may be found, a directory with or
  // without a skill and with or without anything else, or something else.
  datatype Legacy = NoLegacy | LegacyLink(skill: bool) | LegacyDir(skill: bool, more: bool) | OddLegacy

  datatype Home = Home(category: Dir, description: FileAt, folder: Dir, skill: FileAt, legacy: Legacy)

  // Without a category there is no description and was no superseded place; the folder then
  // lies in the skill root.
  datatype Backend = Backend(installable: bool, grouped: bool)

  datatype Payload = Payload(skill: Bytes, description: Bytes)

  datatype Skill = Missing | Different | Current | SymlinkOnPath

  predicate HasLink(home: Home, backend: Backend) {
    home.category.DirLink? || home.folder.DirLink? || home.skill.FileLink? || (backend.grouped && home.description.FileLink?)
  }

  predicate HasLegacySkill(legacy: Legacy) { (legacy.LegacyLink? || legacy.LegacyDir?) && legacy.skill }

  // What a probe answers.
  function Probe(home: Home, payload: Payload, backend: Backend): Skill {
    if HasLink(home, backend) then SymlinkOnPath
    else if backend.grouped && HasLegacySkill(home.legacy) then Different
    else if !home.category.RealDir? || !home.folder.RealDir? || !home.skill.RealFile? then Missing
    else if backend.grouped && !home.description.RealFile? then Missing
    else if home == Finished(home, payload, backend) then Current
    else Different
  }

  // What the payload and its directories are when they are right.
  function Finished(home: Home, payload: Payload, backend: Backend): Home {
    home.(category := RealDir(true), folder := RealDir(true), skill := RealFile(payload.skill, true),
          description := if backend.grouped then RealFile(payload.description, true) else home.description)
  }

  // Without its skill; the directory goes with it when nothing else is in it.
  function Retired(legacy: Legacy): Legacy {
    if !legacy.LegacyDir? then legacy else if legacy.more then LegacyDir(false, true) else NoLegacy
  }

  // The skill and, for a backend that groups skills, the description of its category: the
  // payload's bytes, owned and protected as they should be, in such directories; and the
  // superseded skill is gone.
  predicate HasSkill(home: Home, payload: Payload, backend: Backend) {
    && home.category.RealDir? && home.category.secure && home.folder.RealDir? && home.folder.secure
    && home.skill.RealFile? && home.skill.bytes == payload.skill && home.skill.secure
    && (backend.grouped ==>
          && home.description.RealFile? && home.description.bytes == payload.description && home.description.secure
          && !(home.legacy.LegacyLink? && home.legacy.skill) && !(home.legacy.LegacyDir? && home.legacy.skill))
  }

  predicate LinkAtSkill(home: Home, backend: Backend) {
    || home.category == DirLink || home.folder == DirLink || home.skill == FileLink
    || (backend.grouped && home.description == FileLink)
  }

  /** A probe answers that the skill is current exactly when everything of it is there, byte
      for byte, and that there is a link exactly when there is one. */
  lemma ProbeExactly(home: Home, payload: Payload, backend: Backend)
    ensures Probe(home, payload, backend) == Current <==> HasSkill(home, payload, backend)
    ensures Probe(home, payload, backend) == SymlinkOnPath <==> LinkAtSkill(home, backend)
  {
  }

  predicate Dirlike(d: Dir) { d.NoDir? || d.RealDir? }

  predicate Filelike(f: FileAt) { f.NoFile? || f.RealFile? }

  // Nothing is in the way of the payload.
  predicate Clear(home: Home, backend: Backend) {
    && Dirlike(home.category) && Dirlike(home.folder) && Filelike(home.skill)
    && (backend.grouped ==> Filelike(home.description) && !home.legacy.LegacyLink?)
  }

  // An install can end with the current skill.
  predicate Ready(home: Home, payload: Payload, backend: Backend) {
    !backend.installable || Probe(home, payload, backend) == Current || Clear(home, backend)
  }

  predicate LegacyStep(before: Legacy, after: Legacy) {
    after == before || (before.LegacyDir? && (after == LegacyDir(false, before.more) || (!before.more && after == NoLegacy)))
  }

  // What a run that fails or stops anywhere can have done. Files are whole, old or new; a
  // new skill is in place only once the superseded one is gone; of the superseded place
  // only the skill goes, and the directory only when empty; nothing is done behind a link
  // or to a skill that is current.
  predicate Advanced(before: Home, after: Home, payload: Payload, backend: Backend) {
    && (after.category == before.category || after.category == RealDir(true))
    && (after.folder == before.folder || after.folder == RealDir(true))
    && (after.skill == before.skill || after.skill == RealFile(payload.skill, true))
    && (after.description == before.description || (backend.grouped && after.description == RealFile(payload.description, true)))
    && LegacyStep(before.legacy, after.legacy)
    && (backend.grouped && HasLegacySkill(after.legacy) ==> after == before)
    && (!backend.grouped ==> after.legacy == before.legacy)
    && (!backend.installable || Probe(before, payload, backend) in {SymlinkOnPath, Current} ==> after == before)
  }

  /** A place an install can finish stays one, whatever an interrupted run did to it. */
  lemma AdvancingKeepsReady(before: Home, after: Home, payload: Payload, backend: Backend)
    requires Advanced(before, after, payload, backend)
    ensures Ready(before, payload, backend) ==> Ready(after, payload, backend)
  {
  }
}
