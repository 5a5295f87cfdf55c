/**
 * `get_cached_thumbnail_path`: the lookup of a thumbnail the desktop already
 * cached for a file, trying the "normal" size tier and then the "large" one.
 * The URI conversion (`Gio`), the cache path derivation
 * (`GnomeDesktop.desktop_thumbnail_path_for_uri`) and the `os.path.isfile`
 * check are foreign calls; they are the fields of a `Cache` value.
 */
module ThumbnailCache {
  import opened Wrappers

  type Path = string

  /** `GnomeDesktop.DesktopThumbnailSize.NORMAL` and `.LARGE`. */
  datatype Tier = Normal | Large

  datatype Cache = Cache(
    uriFor: Path -> string,
    thumbnailPathFor: (string, Tier) -> Path,
    isFile: Path -> bool)
  {
    /** Where the desktop keeps the `tier` thumbnail of `filePath`. */
    function TierPath(filePath: Path, tier: Tier): Path {
      thumbnailPathFor(uriFor(filePath), tier)
    }
  }

  /** The normal-tier thumbnail when it is a file, else the large-tier one
      when that is a file, else nothing. */
  function CachedThumbnailPath(cache: Cache, filePath: Path): (r: Option<Path>)
    ensures r.Some? ==> cache.isFile(r.value)
    ensures r.Some? ==> r.value == cache.TierPath(filePath, Normal) || r.value == cache.TierPath(filePath, Large)
    ensures cache.isFile(cache.TierPath(filePath, Normal)) ==> r == Some(cache.TierPath(filePath, Normal))
    ensures r == Some(cache.TierPath(filePath, Large)) && cache.TierPath(filePath, Large) != cache.TierPath(filePath, Normal)
            ==> !cache.isFile(cache.TierPath(filePath, Normal))
    ensures r.None? <==> !cache.isFile(cache.TierPath(filePath, Normal)) && !cache.isFile(cache.TierPath(filePath, Large))
  {
    var normal := cache.TierPath(filePath, Normal);
    if cache.isFile(normal) then Some(normal)
    else
      var large := cache.TierPath(filePath, Large);
      if cache.isFile(large) then Some(large) else None
  }

  /** The path `generate` submits for decoding: the cached thumbnail when the
      lookup gives a non-empty path (Python's truth test), the image itself
      otherwise. */
  function EffectivePath(cache: Cache, imagePath: Path): (p: Path)
    ensures p == imagePath || CachedThumbnailPath(cache, imagePath) == Some(p)
    ensures p != imagePath ==> cache.isFile(p)
    ensures var normal := cache.TierPath(imagePath, Normal);
            cache.isFile(normal) && normal != "" ==> p == normal
    ensures var normal, large := cache.TierPath(imagePath, Normal), cache.TierPath(imagePath, Large);
            !cache.isFile(normal) && cache.isFile(large) && large != "" ==> p == large
    ensures !cache.isFile(cache.TierPath(imagePath, Normal)) && !cache.isFile(cache.TierPath(imagePath, Large))
            ==> p == imagePath
  {
    var cached := CachedThumbnailPath(cache, imagePath);
    if cached.Some? && cached.value != "" then cached.value else imagePath
  }
}
