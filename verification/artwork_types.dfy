/** What the artwork tables share: the key of an item's image. */
module ArtworkTypes {
  const IMAGE_TYPE_PRIMARY := "primary"

  datatype Key = Key(kind: string, id: string, imageType: string)

  /** An image type that is not given is the primary one. */
  function PrimaryType(k: Key): Key { if k.imageType == "" then k.(imageType := IMAGE_TYPE_PRIMARY) else k }
}
