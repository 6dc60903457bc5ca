/** The profile editor (pages/EditProfilePage.tsx): the change handler that
    updates one top-level or one `farm` field, the guarded save, and the
    load-or-redirect effect. The browser's `localStorage` entry
    `userProfile` is modelled as an optional stored profile, and the
    profile state as an optional profile (`null` is `None`). */
module EditProfile {
  import opened Wrappers
  import opened Types

  /** The eight inputs of the form. */
  datatype FormInput = FullName | Title | Email | Phone | Location | FarmName | Registration | MainCrops

  /** The `name` attribute of each input: "Full Name" and "Farm Name" both
      carry `name`. */
  function NameAttribute(input: FormInput): string {
    match input
    case FullName => "name"
    case Title => "title"
    case Email => "email"
    case Phone => "phone"
    case Location => "location"
    case FarmName => "name"
    case Registration => "reg"
    case MainCrops => "crops"
  }

  /** Whether the input's handler passes the `'farm'` section. */
  predicate InFarmSection(input: FormInput) {
    input.FarmName? || input.Registration? || input.MainCrops?
  }

  /** The value each input displays. */
  function FieldValue(p: UserProfile, input: FormInput): string {
    match input
    case FullName => p.name
    case Title => p.title
    case Email => p.email
    case Phone => p.phone
    case Location => p.location
    case FarmName => p.farm.name
    case Registration => p.farm.reg
    case MainCrops => p.farm.crops
  }

  /** The profile read as a dictionary of its string fields. */
  function TopLevelValue(p: UserProfile, key: string): Option<string> {
    if key == "name" then Some(p.name)
    else if key == "title" then Some(p.title)
    else if key == "avatar" then Some(p.avatar)
    else if key == "email" then Some(p.email)
    else if key == "phone" then Some(p.phone)
    else if key == "location" then Some(p.location)
    else None
  }

  /** The farm read as a dictionary of its fields. */
  function FarmValue(f: Farm, key: string): Option<string> {
    if key == "name" then Some(f.name)
    else if key == "reg" then Some(f.reg)
    else if key == "crops" then Some(f.crops)
    else None
  }

  /** `{ ...prev, [name]: value }` for the profile's string fields: the
      field `name` becomes `value`, every other field and the farm keep
      theirs. */
  function SetTopLevel(p: UserProfile, name: string, value: string): (r: UserProfile)
    ensures r.farm == p.farm
    ensures forall key :: TopLevelValue(p, key).Some? ==>
      TopLevelValue(r, key) == if key == name then Some(value) else TopLevelValue(p, key)
  {
    if name == "name" then p.(name := value)
    else if name == "title" then p.(title := value)
    else if name == "avatar" then p.(avatar := value)
    else if name == "email" then p.(email := value)
    else if name == "phone" then p.(phone := value)
    else if name == "location" then p.(location := value)
    else p
  }

  /** `{ ...prev.farm, [name]: value }` for the farm's fields: the field
      `name` becomes `value`, the other fields keep theirs. */
  function SetFarmField(f: Farm, name: string, value: string): (r: Farm)
    ensures forall key :: FarmValue(f, key).Some? ==>
      FarmValue(r, key) == if key == name then Some(value) else FarmValue(f, key)
  {
    if name == "name" then f.(name := value)
    else if name == "reg" then f.(reg := value)
    else if name == "crops" then f.(crops := value)
    else f
  }

  /** `handleChange(e, section)` applied to the previous state: a null
      profile stays null; the farm section changes only the farm, and the
      top section changes only top-level fields. */
  function HandleChange(prev: Option<UserProfile>, name: string, value: string, farmSection: bool): (r: Option<UserProfile>)
    ensures r.Some? <==> prev.Some?
    ensures r.Some? && farmSection ==>
      && (forall key :: TopLevelValue(r.value, key) == TopLevelValue(prev.value, key))
      && r.value.farm == SetFarmField(prev.value.farm, name, value)
    ensures r.Some? && !farmSection ==>
      r.value.farm == prev.value.farm && r.value == SetTopLevel(prev.value, name, value)
  {
    match prev
    case None => None
    case Some(p) =>
      if farmSection then Some(p.(farm := SetFarmField(p.farm, name, value)))
      else Some(SetTopLevel(p, name, value))
  }

  /** Typing `value` into `input`: a null profile stays null; otherwise
      exactly the field that input shows becomes `value`, and every other
      field keeps its value. In particular "Farm Name" never changes the
      person's name, nor "Full Name" the farm's. */
  function TypeInto(prev: Option<UserProfile>, input: FormInput, value: string): (r: Option<UserProfile>)
    ensures r.Some? <==> prev.Some?
    ensures r.Some? ==> FieldValue(r.value, input) == value
    ensures r.Some? ==> forall other :: other != input ==>
      FieldValue(r.value, other) == FieldValue(prev.value, other)
    ensures r.Some? ==> r.value.avatar == prev.value.avatar
  {
    HandleChange(prev, NameAttribute(input), value, InFarmSection(input))
  }

  /** What the mount effect does. */
  datatype LoadEffect = KeepProfile | LoadSaved(profile: UserProfile) | Redirect(path: string)

  /** With a profile passed in, nothing happens; without one, a saved
      profile is loaded if present, and otherwise the page redirects to
      `/profile`. */
  function OnMount(profile: Option<UserProfile>, saved: Option<UserProfile>): (e: LoadEffect)
    ensures e.KeepProfile? <==> profile.Some?
    ensures e.LoadSaved? <==> profile.None? && saved.Some?
    ensures e.LoadSaved? ==> e.profile == saved.value
    ensures e.Redirect? ==> e.path == "/profile"
  {
    if profile.Some? then KeepProfile
    else if saved.Some? then LoadSaved(saved.value)
    else Redirect("/profile")
  }

  /** `handleSubmit`: the stored profile afterwards. It is overwritten only
      when there is a profile to save. */
  function StoredAfterSubmit(profile: Option<UserProfile>, stored: Option<UserProfile>): (r: Option<UserProfile>)
    ensures profile.Some? ==> r == profile
    ensures profile.None? ==> r == stored
  {
    if profile.Some? then profile else stored
  }

  /** The page's state together with the stored profile and the last
      navigation. */
  class EditProfileSession {
    var profile: Option<UserProfile>
    var storage: Option<UserProfile>
    var navigatedTo: Option<string>

    /** `useState(location.state?.profile)`. */
    constructor (passed: Option<UserProfile>, stored: Option<UserProfile>)
      ensures profile == passed && storage == stored && navigatedTo == None
    {
      profile := passed;
      storage := stored;
      navigatedTo := None;
    }

    /** The mount effect. */
    method LoadOrRedirect()
      modifies this
      ensures storage == old(storage)
      ensures old(profile).Some? ==> profile == old(profile) && navigatedTo == old(navigatedTo)
      ensures old(profile).None? && storage.Some? ==> profile == storage && navigatedTo == old(navigatedTo)
      ensures old(profile).None? && storage.None? ==> profile == None && navigatedTo == Some("/profile")
    {
      match OnMount(profile, storage)
      case KeepProfile =>
      case LoadSaved(p) => profile := Some(p);
      case Redirect(path) => navigatedTo := Some(path);
    }

    /** An input's change handler. */
    method Change(input: FormInput, value: string)
      modifies this
      ensures profile == TypeInto(old(profile), input, value)
      ensures storage == old(storage) && navigatedTo == old(navigatedTo)
    {
      profile := TypeInto(profile, input, value);
    }

    /** The form's submit: save and go back to `/profile` when there is a
        profile; do nothing otherwise. */
    method Submit()
      modifies this
      ensures storage == StoredAfterSubmit(old(profile), old(storage))
      ensures navigatedTo == if old(profile).Some? then Some("/profile") else old(navigatedTo)
      ensures profile == old(profile)
    {
      if profile.Some? {
        storage := profile;
        navigatedTo := Some("/profile");
      }
    }
  }
}
