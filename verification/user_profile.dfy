/** The user profile service: the default profile created on first read and
    the one-line address composed when a profile is saved. */
module UserProfile {
  import opened Prelude
  import opened Shipping

  /** A profile document; a missing field is the empty string. */
  datatype Profile = Profile(
    displayName: string,
    phone: string,
    street: string,
    streetNumber: string,
    betweenStreets: string,
    city: string,
    province: string,
    postalCode: string,
    address: string)   // the composed one-line address

  /** The profile written for a user who has none yet. */
  const DefaultProfile: Profile := Profile("", "", "", "", "", "", "", "", "")

  /** The outcome of reading a user's profile document. */
  datatype ProfileRead = Found(profile: Profile) | Missing | ReadFailed

  /** `getUserProfile(userId)`: a missing document yields the default
      profile, a failed read yields null. */
  function GetUserProfile(read: ProfileRead): (r: Option<Profile>)
    ensures read.Missing? ==> r == Some(DefaultProfile)
    ensures read.Found? ==> r == Some(read.profile)
    ensures read.ReadFailed? ==> r.None?
  {
    match read
    case Found(p) => Some(p)
    case Missing => Some(DefaultProfile)
    case ReadFailed => None
  }

  /** The six address fields of a profile. */
  function ProfileAddress(p: Profile): (a: Address)
    ensures a.street == p.street && a.streetNumber == p.streetNumber && a.betweenStreets == p.betweenStreets
    ensures a.city == p.city && a.province == p.province && a.postalCode == p.postalCode
  {
    Address(p.street, p.streetNumber, p.betweenStreets, p.city, p.province, p.postalCode)
  }

  /** `addressParts` before the falsy ones are dropped. */
  function AddressParts(p: Profile): seq<string> {
    [ p.street,
      p.streetNumber,
      if p.betweenStreets != "" then "Entre " + p.betweenStreets else "",
      p.city,
      p.province,
      p.postalCode ]
  }

  /** `addressParts.join(", ")` */
  function ComposeAddress(p: Profile): string {
    Join(Filter(AddressParts(p), (s: string) => s != ""), ", ")
  }

  /** The fields `updateUserProfile(userId, profileData)` writes: the form's
      data with `address` replaced by the composed line. */
  function UpdateUserProfile(data: Profile): (r: Profile)
    ensures r.address == ComposeAddress(data)
    ensures r.(address := data.address) == data
  {
    data.(address := ComposeAddress(data))
  }

  /** The `address` sent by the form never reaches the store. */
  lemma FormAddressIgnored(data: Profile, sent: string)
    ensures UpdateUserProfile(data.(address := sent)) == UpdateUserProfile(data)
  {
    assert AddressParts(data.(address := sent)) == AddressParts(data);
  }

  /** A complete profile composes all six parts, the cross streets with a
      capital "Entre" and the postal code unlabelled. */
  lemma ComposeComplete(p: Profile)
    requires p.street != "" && p.streetNumber != "" && p.betweenStreets != ""
    requires p.city != "" && p.province != "" && p.postalCode != ""
    ensures ComposeAddress(p) ==
            Join([p.street, p.streetNumber, "Entre " + p.betweenStreets, p.city, p.province, p.postalCode], ", ")
  {
    FilterAll(AddressParts(p), (s: string) => s != "");
  }

  /** The stored one-line address and the checkout's display of the same
      address differ: different cross-street word, no postal-code label. */
  lemma ComposeDiffersFromFormat(p: Profile)
    requires p.street != "" && p.streetNumber != "" && p.betweenStreets != ""
    requires p.city != "" && p.province != "" && p.postalCode != ""
    ensures ComposeAddress(p) != FormatShippingAddress(Some(ProfileAddress(p)))
  {
    ComposeComplete(p);
    FormatComplete(ProfileAddress(p));
    CrossStreetWordDiffers(p.street, p.streetNumber, p.betweenStreets, p.city, p.province, p.postalCode);
  }

  /** The two joined lines already differ at the cross-street word. */
  lemma CrossStreetWordDiffers(street: string, number: string, between: string, city: string, province: string, postal: string)
    ensures Join([street, number, "Entre " + between, city, province, postal], ", ") !=
            Join([street, number, "entre " + between, city, province, "CP: " + postal], ", ")
  {
    var c := [street, number, "Entre " + between, city, province, postal];
    var f := [street, number, "entre " + between, city, province, "CP: " + postal];
    assert c[1..][1..] == c[2..] && f[1..][1..] == f[2..];
    assert Join(c[2..], ", ")[0] == 'E' && Join(f[2..], ", ")[0] == 'e' by {
      assert c[2..][0] == c[2] && f[2..][0] == f[2];
    }
    JoinSameHead(c[1..], f[1..], ", ");
    JoinSameHead(c, f, ", ");
  }

  /** The default profile has an empty address: it composes to nothing and
      fails validation on its first field. */
  lemma DefaultProfileIsEmpty()
    ensures ComposeAddress(DefaultProfile) == ""
    ensures ValidateShippingAddress(ProfileAddress(DefaultProfile)) == Invalid(MissingFieldError(Street))
  {
    var parts := AddressParts(DefaultProfile);
    var p := (s: string) => s != "";
    assert forall i :: 0 <= i < |parts| ==> parts[i] == "";
    assert Filter(parts, p) == [] by {
      assert Filter(parts, p) == Filter(parts[1..], p);
      assert Filter(parts[1..], p) == Filter(parts[2..], p) by { assert parts[1..][1..] == parts[2..]; }
      assert Filter(parts[2..], p) == Filter(parts[3..], p) by { assert parts[2..][1..] == parts[3..]; }
      assert Filter(parts[3..], p) == Filter(parts[4..], p) by { assert parts[3..][1..] == parts[4..]; }
      assert Filter(parts[4..], p) == Filter(parts[5..], p) by { assert parts[4..][1..] == parts[5..]; }
      assert Filter(parts[5..], p) == [] by { assert parts[5..][1..] == []; }
    }
    ValidationReportsFirstBlank(ProfileAddress(DefaultProfile), 0);
  }
}
