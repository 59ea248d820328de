/**
 * The two URL builders of `DBHelper`: the restaurant page link and the image
 * address with its placeholder fallback, each with the parser that recovers
 * what the URL was built from.
 */
module Urls {
  import opened Wrappers
  import opened Restaurants

  const RestaurantPagePrefix: string := "./restaurant.html?id="
  const ImagePrefix: string := "/img/"
  const ImageSuffix: string := ".jpg"
  const PlaceholderImage: string := "https://placehold.it/800x400"

  predicate IsDigit(c: char) {
    '0' <= c <= '9'
  }

  predicate AllDigits(s: string) {
    forall i :: 0 <= i < |s| ==> IsDigit(s[i])
  }

  /** The decimal digits of `n`, most significant first, with no leading zero. */
  function NatToDecimal(n: nat): (s: string)
    ensures |s| > 0 && AllDigits(s)
    ensures n > 0 ==> s[0] != '0'
    decreases n
  {
    if n < 10 then [(n + '0' as int) as char]
    else
      var high := NatToDecimal(n / 10);
      assert (high + [((n % 10) + '0' as int) as char])[0] == high[0];
      high + [((n % 10) + '0' as int) as char]
  }

  /** How a template literal `${n}` renders an integer. */
  function IntToDecimal(n: int): string {
    if n < 0 then "-" + NatToDecimal(-n) else NatToDecimal(n)
  }

  /** The value of a string of decimal digits. */
  function DecimalToNat(s: string): nat
    requires AllDigits(s)
    decreases |s|
  {
    if s == [] then 0
    else DecimalToNat(s[..|s| - 1]) * 10 + (s[|s| - 1] as int - '0' as int)
  }

  /** Reading back the digits of a number gives the number. */
  lemma {:induction false} DecimalRoundTrip(n: nat)
    ensures DecimalToNat(NatToDecimal(n)) == n
    decreases n
  {
    if n >= 10 {
      DecimalRoundTrip(n / 10);
      var s := NatToDecimal(n);
      assert s[..|s| - 1] == NatToDecimal(n / 10);
    }
  }

  /** The integer a rendered id stands for, if the text is one. */
  function DecimalToInt(s: string): Option<int> {
    if |s| > 1 && s[0] == '-' && AllDigits(s[1..]) then
      var v: int := DecimalToNat(s[1..]);
      Some(-v)
    else if |s| > 0 && AllDigits(s) then Some(DecimalToNat(s))
    else None
  }

  /** `urlForRestaurant`: the page of one restaurant, identified by its id. */
  function UrlForRestaurant(r: Restaurant): (url: string)
    ensures |url| > |RestaurantPagePrefix| && url[..|RestaurantPagePrefix|] == RestaurantPagePrefix
  {
    RestaurantPagePrefix + IntToDecimal(r.id)
  }

  /** The id that the query string of a restaurant page names. */
  function IdFromRestaurantUrl(url: string): Option<int> {
    if |url| >= |RestaurantPagePrefix| && url[..|RestaurantPagePrefix|] == RestaurantPagePrefix
    then DecimalToInt(url[|RestaurantPagePrefix|..])
    else None
  }

  /** The restaurant page URL names the restaurant's id, so distinct ids give distinct pages. */
  lemma {:induction false} UrlForRestaurantRoundTrip(r: Restaurant)
    ensures IdFromRestaurantUrl(UrlForRestaurant(r)) == Some(r.id)
  {
    var url := UrlForRestaurant(r);
    assert url[|RestaurantPagePrefix|..] == IntToDecimal(r.id);
    if r.id < 0 {
      DecimalRoundTrip(-r.id);
      assert IntToDecimal(r.id)[1..] == NatToDecimal(-r.id);
    } else {
      DecimalRoundTrip(r.id);
      var d := NatToDecimal(r.id);
      assert d[0] != '-' by { assert IsDigit(d[0]); }
    }
  }

  /** Restaurants with different ids link to different pages. */
  lemma UrlForRestaurantInjective(a: Restaurant, b: Restaurant)
    requires a.id != b.id
    ensures UrlForRestaurant(a) != UrlForRestaurant(b)
  {
    UrlForRestaurantRoundTrip(a);
    UrlForRestaurantRoundTrip(b);
  }

  /** `if (restaurant.photograph)`: a photograph that is present and not the empty string. */
  predicate HasPhotograph(r: Restaurant) {
    r.photograph.Some? && r.photograph.value != ""
  }

  /** `imageUrlForRestaurant`: the photograph's JPEG, or the placeholder image. */
  function ImageUrlForRestaurant(r: Restaurant): (url: string)
    ensures url == PlaceholderImage <==> !HasPhotograph(r)
  {
    if HasPhotograph(r) then
      var url := ImagePrefix + r.photograph.value + ImageSuffix;
      assert url[0] != PlaceholderImage[0];
      url
    else PlaceholderImage
  }

  /** The photograph an image URL shows; nothing for the placeholder or any other URL. */
  function PhotographFromImageUrl(url: string): Option<string> {
    var n := |url|;
    if n > |ImagePrefix| + |ImageSuffix| && url[..|ImagePrefix|] == ImagePrefix && url[n - |ImageSuffix|..] == ImageSuffix
    then Some(url[|ImagePrefix|..n - |ImageSuffix|])
    else None
  }

  /** The image URL carries the restaurant's photograph, and the placeholder carries none. */
  lemma ImageUrlRoundTrip(r: Restaurant)
    ensures PhotographFromImageUrl(ImageUrlForRestaurant(r)) == if HasPhotograph(r) then r.photograph else None
  {
    var url := ImageUrlForRestaurant(r);
    if HasPhotograph(r) {
      var p := r.photograph.value;
      assert url[..|ImagePrefix|] == ImagePrefix;
      assert url[|url| - |ImageSuffix|..] == ImageSuffix;
      assert url[|ImagePrefix|..|url| - |ImageSuffix|] == p;
    } else {
      assert url[..|ImagePrefix|] != ImagePrefix by { assert url[0] != ImagePrefix[0]; }
    }
  }
}
