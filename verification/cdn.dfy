/**
 * Image addresses served from the content network: four tables keyed by
 * teacher id, banner position, course kind and store, and one lookup that
 * falls back to a fixed entry of the same table when the key is missing.
 */
module Cdn {
  import opened Wrappers
  import opened Text

  const TeacherAvatars: map<string, string> := map[
    "t1" := "/images/joy.jpg",
    "t2" := "/images/joy.jpg",
    "t3" := "/images/joy.jpg",
    "t4" := "/images/joy.jpg",
    "1" := "https://picsum.photos/seed/teacher1/100/100.jpg",
    "2" := "https://picsum.photos/seed/teacher2/100/100.jpg",
    "3" := "https://picsum.photos/seed/teacher3/100/100.jpg",
    "4" := "https://picsum.photos/seed/teacher4/100/100.jpg",
    "5" := "https://picsum.photos/seed/teacher5/100/100.jpg",
    "6" := "https://picsum.photos/seed/teacher6/100/100.jpg"
  ]

  const Banners: seq<string> := [
    "https://picsum.photos/seed/fitness1/800/400.jpg",
    "https://picsum.photos/seed/yoga2/800/400.jpg",
    "https://picsum.photos/seed/gym3/800/400.jpg"
  ]

  const CourseImages: map<string, string> := map[
    "default" := "https://picsum.photos/seed/course/400/200.jpg"
  ]

  const StoreImages: map<string, string> := map[
    "nanshan" := "https://picsum.photos/seed/nanshan/400/300.jpg",
    "futian" := "https://picsum.photos/seed/futian/400/300.jpg",
    "baoan" := "https://picsum.photos/seed/baoan/400/300.jpg"
  ]

  /** `table[key] || table[fallback]`: a missing or empty entry gives way to the fallback entry. */
  function Entry(table: map<string, string>, key: string, fallback: string): (r: Option<string>)
  {
    if key in table && table[key] != "" then Some(table[key])
    else if fallback in table then Some(table[fallback])
    else None
  }

  /** `BANNERS[parseInt(key)] || BANNERS[0]`: `NaN`, negative and out-of-range positions fall back. */
  function BannerEntry(key: string): (r: Option<string>)
  {
    match ParseInt(key)
    case Some(i) => if 0 <= i < |Banners| && Banners[i] != "" then Some(Banners[i]) else Some(Banners[0])
    case None => Some(Banners[0])
  }

  /** `getCDNUrl(type, key)`; `None` stands for `undefined`. */
  function GetCdnUrl(kind: string, key: string): (r: Option<string>)
    ensures kind !in {"teacher", "banner", "course", "store"} ==> r == Some("")
  {
    match kind
    case "teacher" => Entry(TeacherAvatars, key, "1")
    case "banner" => BannerEntry(key)
    case "course" => Entry(CourseImages, key, "default")
    case "store" => Entry(StoreImages, key, "nanshan")
    case _ => Some("")
  }

  predicate NonEmptyValues(table: map<string, string>) {
    forall k :: k in table ==> table[k] != ""
  }

  /** Every fallback key is listed and no entry is empty. */
  lemma TablesComplete()
    ensures "1" in TeacherAvatars && "default" in CourseImages && "nanshan" in StoreImages && |Banners| > 0
    ensures NonEmptyValues(TeacherAvatars) && NonEmptyValues(CourseImages) && NonEmptyValues(StoreImages)
    ensures forall i :: 0 <= i < |Banners| ==> Banners[i] != ""
  {
  }

  /** A key listed in a table with non-empty entries yields its own entry; any other key yields the fallback's. */
  lemma {:induction false} EntryCases(table: map<string, string>, key: string, fallback: string)
    requires NonEmptyValues(table) && fallback in table
    ensures Entry(table, key, fallback).Some?
    ensures key in table ==> Entry(table, key, fallback).value == table[key]
    ensures key !in table ==> Entry(table, key, fallback).value == table[fallback]
    ensures Entry(table, key, fallback).value != ""
    ensures Entry(table, key, fallback).value in table.Values
  {
  }

  /** The four known kinds never produce `undefined` or the empty string, and always answer from their own table. */
  lemma {:induction false} KnownKindsAlwaysAnswer(kind: string, key: string)
    requires kind in {"teacher", "banner", "course", "store"}
    ensures GetCdnUrl(kind, key).Some? && GetCdnUrl(kind, key).value != ""
    ensures kind == "teacher" ==> GetCdnUrl(kind, key).value in TeacherAvatars.Values
    ensures kind == "banner" ==> GetCdnUrl(kind, key).value in Banners
    ensures kind == "course" ==> GetCdnUrl(kind, key).value in CourseImages.Values
    ensures kind == "store" ==> GetCdnUrl(kind, key).value in StoreImages.Values
  {
    TablesComplete();
    if kind == "teacher" {
      EntryCases(TeacherAvatars, key, "1");
    } else if kind == "course" {
      EntryCases(CourseImages, key, "default");
    } else if kind == "store" {
      EntryCases(StoreImages, key, "nanshan");
    }
  }

  /** A listed teacher id gets its own avatar; an unlisted one gets teacher `'1'`'s. */
  lemma TeacherFallback(key: string)
    ensures key in TeacherAvatars ==> GetCdnUrl("teacher", key) == Some(TeacherAvatars[key])
    ensures key !in TeacherAvatars ==> GetCdnUrl("teacher", key) == Some(TeacherAvatars["1"])
  {
    TablesComplete();
    EntryCases(TeacherAvatars, key, "1");
  }

  /** A banner position written as a number picks that banner when it exists, otherwise the first. */
  lemma {:induction false} BannerPosition(i: nat)
    ensures i < |Banners| ==> GetCdnUrl("banner", NatToString(i)) == Some(Banners[i])
    ensures i >= |Banners| ==> GetCdnUrl("banner", NatToString(i)) == Some(Banners[0])
  {
    ParseIntRoundTrip(i);
    BannerOfPosition(NatToString(i), i);
  }

  lemma BannerOfPosition(key: string, i: int)
    requires ParseInt(key) == Some(i)
    ensures 0 <= i < |Banners| ==> BannerEntry(key) == Some(Banners[i])
    ensures !(0 <= i < |Banners|) ==> BannerEntry(key) == Some(Banners[0])
  {
    TablesComplete();
  }

  /** Unknown courses and stores fall back to the default course image and the Nanshan store image. */
  lemma CourseAndStoreFallback(key: string)
    ensures key !in CourseImages ==> GetCdnUrl("course", key) == Some(CourseImages["default"])
    ensures key !in StoreImages ==> GetCdnUrl("store", key) == Some(StoreImages["nanshan"])
  {
    TablesComplete();
    EntryCases(CourseImages, key, "default");
    EntryCases(StoreImages, key, "nanshan");
  }
}
