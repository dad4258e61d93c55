/**
 * The `user` table row. Lombok's @EqualsAndHashCode compares every field, which is exactly
 * datatype equality; the setters of the Java class become functional updates of the row.
 * `followersCount`/`followingsCount` and a settable `description` are used by the services
 * and the User projection; they default to 0 and null.
 */
module UserEntities {
  import opened Wrappers
  import opened Basics

  datatype UserEntity = UserEntity(
    id: Option<UserId>,
    username: string,
    password: string,          // the encoded (hashed) password
    profile: string,           // avatar URL
    description: Option<string>,
    followersCount: nat,
    followingsCount: nat,
    createdDateTime: Option<Time>,
    updatedDateTime: Option<Time>,
    deletedDateTime: Option<Time>)

  const AvatarPrefix: string := "https://avatar.iran.liara.run/public/"

  predicate AllDigits(s: string)
  {
    forall i :: 0 <= i < |s| ==> '0' <= s[i] <= '9'
  }

  function Digit(d: nat): char
    requires d < 10
  {
    ('0' as int + d) as char
  }

  function DigitValue(c: char): nat
    requires '0' <= c <= '9'
  {
    c as int - '0' as int
  }

  /** Java's decimal rendering of a non-negative int, as in `"..." + n`. */
  function DecimalString(n: nat): (r: string)
    ensures 1 <= |r| && AllDigits(r)
    decreases n
  {
    if n < 10 then [Digit(n)] else DecimalString(n / 10) + [Digit(n % 10)]
  }

  /** The number a string of decimal digits denotes. */
  function DecimalValue(s: string): nat
    requires AllDigits(s)
    decreases |s|
  {
    if |s| == 0 then 0 else 10 * DecimalValue(s[..|s| - 1]) + DigitValue(s[|s| - 1])
  }

  lemma {:induction false} DecimalRoundTrip(n: nat)
    ensures DecimalValue(DecimalString(n)) == n
    decreases n
  {
    if n >= 10 {
      DecimalRoundTrip(n / 10);
      var s := DecimalString(n / 10) + [Digit(n % 10)];
      assert s[..|s| - 1] == DecimalString(n / 10);
    }
  }

  /** The profile URL `of` assigns: the prefix followed by a number from 1 to 100. */
  predicate IsAvatarUrl(p: string)
  {
    && |AvatarPrefix| < |p|
    && p[..|AvatarPrefix|] == AvatarPrefix
    && AllDigits(p[|AvatarPrefix|..])
    && 1 <= DecimalValue(p[|AvatarPrefix|..]) <= 100
  }

  /** `roll` is the value `new Random().nextInt(100)` returned. */
  function AvatarUrl(roll: nat): (p: string)
    requires roll < 100
    ensures IsAvatarUrl(p)
    ensures DecimalValue(p[|AvatarPrefix|..]) == roll + 1
  {
    var p := AvatarPrefix + DecimalString(roll + 1);
    assert p[|AvatarPrefix|..] == DecimalString(roll + 1);
    DecimalRoundTrip(roll + 1);
    p
  }

  /** A transient row: not yet saved, so it has no id and no timestamps. */
  predicate Transient(e: UserEntity)
  {
    e.id.None? && e.createdDateTime.None? && e.updatedDateTime.None? && e.deletedDateTime.None?
  }

  /** Only rows whose deletedDateTime is null are seen by repository lookups (@SQLRestriction). */
  predicate Visible(e: UserEntity)
  {
    e.deletedDateTime.None?
  }

  /** `UserEntity.of(username, password)`. */
  function Of(username: string, password: string, roll: nat): (e: UserEntity)
    requires roll < 100
    ensures e.username == username && e.password == password
    ensures IsAvatarUrl(e.profile)
    ensures Transient(e) && Visible(e) && e.description.None?
    ensures e.followersCount == 0 && e.followingsCount == 0
  {
    UserEntity(None, username, password, AvatarUrl(roll), None, 0, 0, None, None, None)
  }

  /** The @PrePersist hook: both timestamps become the same instant; nothing else changes. */
  function PrePersist(e: UserEntity, now: Time): (r: UserEntity)
    ensures r.createdDateTime == r.updatedDateTime == Some(now)
    ensures r.(createdDateTime := e.createdDateTime, updatedDateTime := e.updatedDateTime) == e
  {
    e.(createdDateTime := Some(now), updatedDateTime := Some(now))
  }

  /** The @PreUpdate hook: only updatedDateTime moves; createdDateTime is never rewritten. */
  function PreUpdate(e: UserEntity, now: Time): (r: UserEntity)
    ensures r.updatedDateTime == Some(now) && r.createdDateTime == e.createdDateTime
    ensures r.(updatedDateTime := e.updatedDateTime) == e
  {
    e.(updatedDateTime := Some(now))
  }

  /** The @SQLDelete statement: `deleted_date_time = current_timestamp` on this row only. */
  function SoftDelete(e: UserEntity, now: Time): (r: UserEntity)
    ensures !Visible(r)
    ensures r.(deletedDateTime := e.deletedDateTime) == e
  {
    e.(deletedDateTime := Some(now))
  }

  // The UserDetails account-status methods: constant true.
  predicate IsAccountNonExpired(e: UserEntity) { true }
  predicate IsAccountNonLocked(e: UserEntity) { true }
  predicate IsCredentialsNonExpired(e: UserEntity) { true }
  predicate IsEnabled(e: UserEntity) { true }

  lemma AccountAlwaysUsable(e: UserEntity)
    ensures IsAccountNonExpired(e) && IsAccountNonLocked(e) && IsCredentialsNonExpired(e) && IsEnabled(e)
  {
  }
}
