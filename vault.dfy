/** The vault layout: the three sub-directories below the vault root. */
module Vault {
  import opened Paths

  const NotesDir := "notes"
  const MetaDir := "meta"
  const ScreenshotDir := "screenshots"

  /** The sub-directories are distinct single names. */
  lemma SubDirsAreNames()
    ensures Normal(NotesDir) && Normal(MetaDir) && Normal(ScreenshotDir)
    ensures NotesDir != MetaDir && MetaDir != ScreenshotDir && NotesDir != ScreenshotDir
  {
  }
}
