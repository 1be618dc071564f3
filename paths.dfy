/** The per-machine file names: the license text file under the license
    folder and the personalised copy of the spreadsheet template. Paths are
    POSIX paths relative to the server's data folder ".". */
module Paths {

  /** `os.path.join(".", "licenses")` */
  const LicenseFolder: string := "./licenses"

  /** `os.path.join(LicenseFolder, "license_")` up to the machine id: the
      joined component starts with "license_", never with a separator, so the
      join is a plain concatenation with one "/". */
  const LicensePrefix: string := LicenseFolder + "/license_"
  const LicenseSuffix: string := ".txt"

  const ArtifactPrefix: string := "QTY_Network_2025_"
  const ArtifactSuffix: string := ".xlsm"

  /** get_license_file_path */
  function LicensePath(m: string): (path: string)
    ensures |path| == |LicensePrefix| + |m| + |LicenseSuffix|
    ensures path[..|LicensePrefix|] == LicensePrefix
    ensures path[|LicensePrefix|..|path| - |LicenseSuffix|] == m
    ensures path[|path| - |LicenseSuffix|..] == LicenseSuffix
  {
    var path := LicensePrefix + m + LicenseSuffix;
    assert path[..|LicensePrefix|] == LicensePrefix;
    assert path[|LicensePrefix|..|path| - |LicenseSuffix|] == m;
    path
  }

  /** The name of the spreadsheet copied from the template for machine `m`. */
  function ArtifactName(m: string): (name: string)
    ensures |name| == |ArtifactPrefix| + |m| + |ArtifactSuffix|
    ensures name[..|ArtifactPrefix|] == ArtifactPrefix
    ensures name[|ArtifactPrefix|..|name| - |ArtifactSuffix|] == m
    ensures name[|name| - |ArtifactSuffix|..] == ArtifactSuffix
  {
    var name := ArtifactPrefix + m + ArtifactSuffix;
    assert name[..|ArtifactPrefix|] == ArtifactPrefix;
    assert name[|ArtifactPrefix|..|name| - |ArtifactSuffix|] == m;
    name
  }

  /** Different machines never share a license path. */
  lemma LicensePathInjective(a: string, b: string)
    ensures LicensePath(a) == LicensePath(b) <==> a == b
  {
  }

  /** Different machines never share a spreadsheet name. */
  lemma ArtifactNameInjective(a: string, b: string)
    ensures ArtifactName(a) == ArtifactName(b) <==> a == b
  {
  }

  /** A license file is never a spreadsheet copy: the two live in different
      folders. */
  lemma LicensePathIsNotArtifact(a: string, b: string)
    ensures LicensePath(a) != ArtifactName(b)
  {
    assert LicensePath(a)[0] == '.' && ArtifactName(b)[0] == 'Q';
  }
}
