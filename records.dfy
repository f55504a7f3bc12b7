/** The launcher's metadata records (launcher/types/versionmeta.py, launcher/types/JRE.py,
    launcher/types/enums.py). Each dataclass's `__post_init__` is a list of assertions
    run in order; here construction returns the record or the first assertion that fails. */
module Records {
  import opened Common
  import opened Text

  datatype VersionType = Snapshot | Release | OldAlpha

  datatype MachineArch = X86 | X64

  /** A `datetime` value; the records only check that one is present. */
  datatype Timestamp = Timestamp(seconds: int)

  datatype VersionMeta = VersionMeta(
    id: string,
    versionType: VersionType,
    url: string,
    time: Timestamp,
    releaseTime: Timestamp,
    sha1: string,
    complianceLevel: int)

  /** The value assertions of VersionMeta.__post_init__, in source order. */
  datatype VersionMetaError = BlankId | BlankUrl | BlankSha1 | NegativeComplianceLevel

  /** The validity the record promises, stated without `strip()`. */
  predicate ValidVersionMeta(m: VersionMeta)
  {
    !Blank(m.id) && !Blank(m.url) && !Blank(m.sha1) && m.complianceLevel >= 0
  }

  /** `VersionMeta(...)`: the dataclass constructor followed by `__post_init__`.
      The type assertions hold by construction; the value assertions run in source
      order, so the first one violated is the error reported. */
  function NewVersionMeta(
    id: string, versionType: VersionType, url: string, time: Timestamp,
    releaseTime: Timestamp, sha1: string, complianceLevel: int): (r: Result<VersionMeta, VersionMetaError>)
    ensures r.Success? <==> ValidVersionMeta(VersionMeta(id, versionType, url, time, releaseTime, sha1, complianceLevel))
    ensures r.Success? ==> r.value == VersionMeta(id, versionType, url, time, releaseTime, sha1, complianceLevel)
    ensures r == Failure(BlankId) <==> Blank(id)
    ensures r == Failure(BlankUrl) <==> !Blank(id) && Blank(url)
    ensures r == Failure(BlankSha1) <==> !Blank(id) && !Blank(url) && Blank(sha1)
    ensures r == Failure(NegativeComplianceLevel) <==>
              !Blank(id) && !Blank(url) && !Blank(sha1) && complianceLevel < 0
  {
    StripEmptyIffBlank(id);
    StripEmptyIffBlank(url);
    StripEmptyIffBlank(sha1);
    if Strip(id) == [] then Failure(BlankId)
    else if Strip(url) == [] then Failure(BlankUrl)
    else if Strip(sha1) == [] then Failure(BlankSha1)
    else if !(complianceLevel >= 0) then Failure(NegativeComplianceLevel)
    else Success(VersionMeta(id, versionType, url, time, releaseTime, sha1, complianceLevel))
  }

  datatype JreAvailability = JreAvailability(group: int, progress: int)

  /** The value assertions of JREAvailability.__post_init__, in source order. */
  datatype JreAvailabilityError = ProgressOutOfRange | NegativeGroup

  /** Python's chained comparison `progress >= 0 <= 100`, which reads as
      `progress >= 0 and 0 <= 100`: the upper bound compares two constants. */
  predicate ChainedProgressCheck(progress: int)
  {
    progress >= 0 && 0 <= 100
  }

  /** `JREAvailability(group, progress)` as written. */
  function NewJreAvailability(group: int, progress: int): (r: Result<JreAvailability, JreAvailabilityError>)
    ensures r.Success? <==> progress >= 0 && group >= 0
    ensures r.Success? ==> r.value == JreAvailability(group, progress)
    ensures r == Failure(ProgressOutOfRange) <==> progress < 0
    ensures r == Failure(NegativeGroup) <==> progress >= 0 && group < 0
  {
    if !ChainedProgressCheck(progress) then Failure(ProgressOutOfRange)
    else if !(group >= 0) then Failure(NegativeGroup)
    else Success(JreAvailability(group, progress))
  }

  /** The as-written check lets a progress above 100 through, despite its message
      "Progress must be between 0 and 100". */
  lemma ProgressAboveHundredAccepted()
    ensures NewJreAvailability(0, 150) == Success(JreAvailability(0, 150))
  {
  }

  /** `JREAvailability` with the bound its message states, `0 <= progress <= 100`. */
  function NewJreAvailabilityBounded(group: int, progress: int): (r: Result<JreAvailability, JreAvailabilityError>)
    ensures r.Success? <==> 0 <= progress <= 100 && group >= 0
    ensures r.Success? ==> r.value == JreAvailability(group, progress)
    ensures r == Failure(ProgressOutOfRange) <==> progress < 0 || progress > 100
    ensures r.Success? ==> NewJreAvailability(group, progress) == r
  {
    if !(0 <= progress <= 100) then Failure(ProgressOutOfRange)
    else if !(group >= 0) then Failure(NegativeGroup)
    else Success(JreAvailability(group, progress))
  }

  /** JREManifest: its `__post_init__` checks only types, so every value is accepted. */
  datatype JreManifest = JreManifest(sha1: string, size: int, url: string)

  /** JREVersion: its `__post_init__` checks only types. */
  datatype JreVersion = JreVersion(name: string, released: Timestamp)

  /** JRE: a plain dataclass with no `__post_init__`. */
  datatype Jre = Jre(arch: MachineArch, availability: JreAvailability, manifest: JreManifest, version: JreVersion)

  /** Building a JRE record from its field values: the nested JREAvailability is the
      only part whose construction can fail; the manifest and version are stored as
      given, whatever their values (an empty digest or URL, a negative size). */
  function NewJre(
    arch: MachineArch, group: int, progress: int,
    sha1: string, size: int, url: string,
    name: string, released: Timestamp): (r: Result<Jre, JreAvailabilityError>)
    ensures r.Success? <==> progress >= 0 && group >= 0
    ensures r.Failure? ==> r.error == (if progress < 0 then ProgressOutOfRange else NegativeGroup)
    ensures r.Success? ==> r.value.manifest == JreManifest(sha1, size, url)
    ensures r.Success? ==> r.value.version == JreVersion(name, released)
    ensures r.Success? ==> r.value.arch == arch && r.value.availability == JreAvailability(group, progress)
  {
    match NewJreAvailability(group, progress)
    case Failure(e) => Failure(e)
    case Success(availability) =>
      Success(Jre(arch, availability, JreManifest(sha1, size, url), JreVersion(name, released)))
  }
}
