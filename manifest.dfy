/** The fixed texture manifest: local filename -> remote filename. */
module Manifest {

  /** One `textures` dictionary item: the local filename (key) and the remote filename (value). */
  datatype Entry = Entry(filename: string, remoteName: string)

  /** A Python dict never holds the same key twice. */
  predicate UniqueFilenames(m: seq<Entry>)
  {
    forall i, j :: 0 <= i < j < |m| ==> m[i].filename != m[j].filename
  }

  /** A dictionary of filenames, in insertion (= iteration) order. */
  type Table = m: seq<Entry> | UniqueFilenames(m) witness []

  /** Every key is a non-empty string, hence truthy in Python. */
  predicate NonEmptyFilenames(m: seq<Entry>)
  {
    forall i :: 0 <= i < |m| ==> m[i].filename != ""
  }

  /** The `textures` table of the downloader, in declaration order. */
  const Textures: seq<Entry> := [
    Entry("sun.jpg", "2k_sun.jpg"),
    Entry("mercury.jpg", "2k_mercury.jpg"),
    Entry("venus.jpg", "2k_venus_surface.jpg"),
    Entry("earth.jpg", "2k_earth_daymap.jpg"),
    Entry("moon.jpg", "2k_moon.jpg"),
    Entry("mars.jpg", "2k_mars.jpg"),
    Entry("jupiter.jpg", "2k_jupiter.jpg"),
    Entry("saturn.jpg", "2k_saturn.jpg"),
    Entry("uranus.jpg", "2k_uranus.jpg"),
    Entry("neptune.jpg", "2k_neptune.jpg"),
    Entry("stars.jpg", "2k_stars_milky_way.jpg")
  ]

  /** The dictionary literal has no repeated key, so no item is overwritten and the
      table is a `Table`; the first two characters of each local name tell them apart. */
  lemma TexturesUnique()
    ensures UniqueFilenames(Textures)
  {
    var t := Textures;
    var keys := [('s', 'u'), ('m', 'e'), ('v', 'e'), ('e', 'a'), ('m', 'o'), ('m', 'a'),
                 ('j', 'u'), ('s', 'a'), ('u', 'r'), ('n', 'e'), ('s', 't')];
    assert forall i :: 0 <= i < |t| ==> |t[i].filename| >= 2 && (t[i].filename[0], t[i].filename[1]) == keys[i];
    assert forall i, j :: 0 <= i < j < |keys| ==> keys[i] != keys[j];
  }

  /** The shipped table has eleven entries, all with non-empty local names. */
  lemma TexturesShape()
    ensures |Textures| == 11
    ensures NonEmptyFilenames(Textures)
    ensures Textures[0].filename == "sun.jpg" && Textures[10].filename == "stars.jpg"
  {
  }
}
