/** The category tables of the client and their lookup-with-fallback helpers. */
module SportsConstants {
  import opened Results

  /** Cover images by category; "All" and "Other" have none. */
  const SportImages: map<string, string> := map[
    "Kabaddi" := "https://images.unsplash.com/photo-1571019613454-1cb2f99b2d8b",
    "Badminton" := "https://images.unsplash.com/photo-1544737151-6e4b6999de49",
    "Cricket" := "https://images.unsplash.com/photo-1540747913346-19e32dc3e97e",
    "Football" := "https://images.unsplash.com/photo-1431324155629-1a6deb1dec8d",
    "Basketball" := "https://images.unsplash.com/photo-1546519638-68e109498ffc",
    "Tennis" := "https://images.unsplash.com/photo-1554068865-24cecd4e34b8",
    "Running" := "https://images.unsplash.com/photo-1571008887538-b36bb32f4571"]

  const DefaultSportImage := "https://images.unsplash.com/photo-1461896836934-ffe607ba8211"

  /** The image size parameter used when the caller gives none. */
  const DefaultImageSize := "w=600"

  const CategoryIcons: map<string, string> := map[
    "All" := "apps",
    "Cricket" := "american-football",
    "Football" := "football",
    "Badminton" := "tennisball",
    "Running" := "walk",
    "Basketball" := "basketball",
    "Tennis" := "tennisball",
    "Kabaddi" := "fitness",
    "Other" := "ellipsis-horizontal"]

  const FallbackIcon := "ellipse"

  const CategoryColors: map<string, string> := map[
    "All" := "#007AFF",
    "Cricket" := "#34C759",
    "Football" := "#FF9500",
    "Badminton" := "#AF52DE",
    "Running" := "#FF3B30",
    "Basketball" := "#FF6B35",
    "Tennis" := "#5AC8FA",
    "Kabaddi" := "#FFCC02",
    "Other" := "#8E8E93"]

  /** The primary theme color, the fallback of the color lookup. */
  const ThemePrimary := "#007AFF"

  /** `table[key] || fallback`: a missing key or an empty (falsy) entry falls back. */
  function LookupOr(table: map<string, string>, key: string, fallback: string): string
  {
    var found := if key in table then table[key] else "";
    if found != "" then found else fallback
  }

  /** The base image URL of a category. */
  function SportImageBase(category: string): string
  {
    LookupOr(SportImages, category, DefaultSportImage)
  }

  /** `getSportImage(category, size = 'w=600')`: the base URL, "?", then the size. */
  function GetSportImage(category: string, size: Option<string>): (r: string)
    ensures var s := if size.Some? then size.value else DefaultImageSize;
      r == (if category in SportImages then SportImages[category] else DefaultSportImage) + "?" + s
  {
    var s := if size.Some? then size.value else DefaultImageSize;
    SportImageBase(category) + "?" + s
  }

  /** `getCategoryIcon`: the listed icon, or "ellipse" for any other input. */
  function GetCategoryIcon(category: string): (r: string)
    ensures category in CategoryIcons ==> r == CategoryIcons[category]
    ensures category !in CategoryIcons ==> r == FallbackIcon
  {
    LookupOr(CategoryIcons, category, FallbackIcon)
  }

  /** `getCategoryColor`: the listed color, or the primary theme color. */
  function GetCategoryColor(category: string): (r: string)
    ensures category in CategoryColors ==> r == CategoryColors[category]
    ensures category !in CategoryColors ==> r == ThemePrimary
  {
    LookupOr(CategoryColors, category, ThemePrimary)
  }

  /** "All", "Other" and unlisted categories share the default image, since
      the image table lists seven categories only. */
  lemma UnlistedSportsGetDefaultImage(category: string, size: Option<string>)
    requires category == "All" || category == "Other" || category !in CategoryIcons
    ensures GetSportImage(category, size)
         == DefaultSportImage + "?" + (if size.Some? then size.value else DefaultImageSize)
  {
  }

  /** The image table covers exactly the listed categories other than "All" and "Other". */
  lemma ImageCategories()
    ensures SportImages.Keys == CategoryIcons.Keys - {"All", "Other"}
  {
  }

  /** The icon and color tables list the same categories, so the icon lookup
      falls back exactly for the categories the color lookup falls back for. */
  lemma IconAndColorTablesAgree(category: string)
    ensures CategoryIcons.Keys == CategoryColors.Keys
    ensures GetCategoryIcon(category) == FallbackIcon <==> category !in CategoryColors
  {
    IconFallbackIsRecognizable(category);
  }

  /** "ellipse" is no listed icon, so the icon lookup fell back exactly when it returns it. */
  lemma IconFallbackIsRecognizable(category: string)
    ensures GetCategoryIcon(category) == FallbackIcon <==> category !in CategoryIcons
  {
    if category in CategoryIcons {
      assert CategoryIcons[category] in CategoryIcons.Values;
      assert FallbackIcon !in CategoryIcons.Values;
    }
  }
}
