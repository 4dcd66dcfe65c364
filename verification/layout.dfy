/** The on-disk layout of a posterior chain directory and the one notion of
    chain identity the plugin uses: the checksum of the control file. */
module Layout {

  /** The four files of a posterior chain directory. */
  datatype PosteriorFile = ControlFile | LogFile | TreesFile | OpsFile

  /** A file's name within the chain directory. */
  function FileName(f: PosteriorFile): (name: string)
    ensures |name| > 0
  {
    match f
    case ControlFile => "control_file.xml"
    case LogFile => "posterior.log"
    case TreesFile => "posterior.trees"
    case OpsFile => "posterior.ops"
  }

  /** The four files of the directory are stored under four distinct names. */
  lemma FileNameInjective(f: PosteriorFile, g: PosteriorFile)
    ensures FileName(f) == FileName(g) <==> f == g
  {
  }

  /** The MD5 digest of a control file, compared only for equality:
      two chains agree when their control files are byte-identical. */
  type Checksum = string

  /** A posterior chain directory, seen through its control file's checksum.
      Its four files are referred to by name (see `Plan.FileRef`). */
  datatype Chain = Chain(controlChecksum: Checksum)

  /** The set of distinct control-file checksums among `chains`. */
  function ControlChecksums(chains: seq<Chain>): (sums: set<Checksum>)
    ensures forall i :: 0 <= i < |chains| ==> chains[i].controlChecksum in sums
    ensures forall c :: c in sums ==> exists i :: 0 <= i < |chains| && chains[i].controlChecksum == c
  {
    set i | 0 <= i < |chains| :: chains[i].controlChecksum
  }

  /** All chains were generated from the same control file. */
  predicate ShareControl(chains: seq<Chain>) {
    forall i, j :: 0 <= i < |chains| && 0 <= j < |chains| ==>
      chains[i].controlChecksum == chains[j].controlChecksum
  }

  /** The plugin's test "at most one distinct checksum" is exactly pairwise
      agreement of the chains' control files. */
  lemma SingleChecksumIffShared(chains: seq<Chain>)
    ensures |ControlChecksums(chains)| <= 1 <==> ShareControl(chains)
  {
    var sums := ControlChecksums(chains);
    if ShareControl(chains) {
      if |chains| == 0 {
        assert sums == {};
      } else {
        assert sums == {chains[0].controlChecksum};
      }
    } else {
      var i, j :| 0 <= i < |chains| && 0 <= j < |chains| &&
        chains[i].controlChecksum != chains[j].controlChecksum;
      var a, b := chains[i].controlChecksum, chains[j].controlChecksum;
      assert a in sums && b in sums;
      assert b in sums - {a};
      assert |sums - {a}| >= 1;
    }
  }
}
