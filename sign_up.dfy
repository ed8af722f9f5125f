/** The two-step sign-up form (src/Components/SignUpPage.js): personal details,
    then account details with a password-strength meter and a confirmation
    field; the form posts only from the second step and only when the two
    passwords agree. */
module SignUp {
  import Text
  import Seqs

  const StrengthLabels: seq<string> := ["Weak", "Medium", "Strong", "Very Strong"]
  const StrengthColors: seq<string> := ["bg-red-500", "bg-orange-500", "bg-yellow-500", "bg-green-500"]

  /** The highest strength the meter shows. */
  const MaxStrength: nat := 3

  datatype Criterion = LongerThanSix | LongerThanTen | HasUppercase | HasDigit | HasSymbol

  /** The criteria `checkPasswordStrength` awards a point for, in its order. */
  const Criteria: seq<Criterion> := [LongerThanSix, LongerThanTen, HasUppercase, HasDigit, HasSymbol]

  predicate Satisfies(pwd: string, c: Criterion)
  {
    match c
    case LongerThanSix => |pwd| > 6
    case LongerThanTen => |pwd| > 10
    case HasUppercase => Text.HasUpper(pwd)
    case HasDigit => Text.HasDigit(pwd)
    case HasSymbol => Text.HasSymbol(pwd)
  }

  /** The strength of a password: the number of criteria it meets, at most 3. */
  function Strength(pwd: string): nat
  {
    Seqs.Min(|Seqs.Filter(c => Satisfies(pwd, c), Criteria)|, MaxStrength)
  }

  /** `checkPasswordStrength`: one point per criterion met, clamped to 3, so
      it always indexes the four-entry label and colour tables. */
  method CheckPasswordStrength(pwd: string) returns (strength: nat)
    ensures strength == Strength(pwd)
    ensures strength < |StrengthLabels| && strength < |StrengthColors|
  {
    var count := 0;
    if |pwd| > 6 { count := count + 1; }
    if |pwd| > 10 { count := count + 1; }
    if Text.HasUpper(pwd) { count := count + 1; }
    if Text.HasDigit(pwd) { count := count + 1; }
    if Text.HasSymbol(pwd) { count := count + 1; }
    strength := if count < MaxStrength then count else MaxStrength;

    var keep := c => Satisfies(pwd, c);
    assert Criteria == [LongerThanSix] + ([LongerThanTen] + ([HasUppercase] + ([HasDigit] + [HasSymbol])));
    assert Seqs.Filter(keep, [HasSymbol]) == if keep(HasSymbol) then [HasSymbol] else [];
  }

  /** The empty password is "Weak". */
  lemma EmptyPasswordIsWeak()
    ensures Strength("") == 0
  {
    var keep := c => Satisfies("", c);
    assert Criteria == [LongerThanSix] + ([LongerThanTen] + ([HasUppercase] + ([HasDigit] + [HasSymbol])));
    assert Seqs.Filter(keep, [HasSymbol]) == [];
  }

  /** Typing one more character never lowers the strength. */
  lemma StrengthMonotone(pwd: string, c: char)
    ensures Strength(pwd) <= Strength(pwd + [c])
  {
    var longer := pwd + [c];
    forall k: Criterion | Satisfies(pwd, k) ensures Satisfies(longer, k) {
      match k
      case HasUppercase => var i :| 0 <= i < |pwd| && Text.IsUpper(pwd[i]); assert longer[i] == pwd[i];
      case HasDigit => var i :| 0 <= i < |pwd| && Text.IsDigit(pwd[i]); assert longer[i] == pwd[i];
      case HasSymbol => var i :| 0 <= i < |pwd| && !Text.IsAlphanumeric(pwd[i]); assert longer[i] == pwd[i];
      case LongerThanSix =>
      case LongerThanTen =>
    }
    Seqs.FilterLengthMonotone(k => Satisfies(pwd, k), k => Satisfies(longer, k), Criteria);
  }

  /** The meter's caption. */
  function StrengthLabel(strength: nat): (caption: string)
    requires strength <= MaxStrength
    ensures caption in StrengthLabels
  {
    StrengthLabels[strength]
  }

  /** The form's state. */
  class Form {
    var step: int
    var password: string
    var confirmPassword: string
    var error: string
    var passwordStrength: nat

    /** The wizard is on one of its two steps, and the meter shows the
        strength of the current password. */
    ghost predicate Valid()
      reads this
    {
      (step == 1 || step == 2) && passwordStrength == Strength(password)
    }

    constructor ()
      ensures Valid()
      ensures step == 1 && password == "" && confirmPassword == "" && error == "" && passwordStrength == 0
    {
      step := 1;
      password := "";
      confirmPassword := "";
      error := "";
      passwordStrength := 0;
      EmptyPasswordIsWeak();
    }

    /** The "Passwords do not match" hint under the confirmation field. */
    predicate ShowMismatch()
      reads this
    {
      password != confirmPassword
    }

    /** The Previous button is rendered from the second step on. */
    predicate ShowPrevious()
      reads this
    {
      step > 1
    }

    /** `handleSubmit`: before the last step it only advances; on the last
        step it refuses mismatched passwords and otherwise posts the sign-up,
        whose outcome is `signupSucceeds`. `posted` says whether a request was sent. */
    method HandleSubmit(signupSucceeds: bool) returns (posted: bool)
      requires Valid()
      modifies this`step, this`error
      ensures Valid()
      ensures posted <==> old(step) == 2 && !ShowMismatch()
      ensures old(step) != 2 ==> step == old(step) + 1 && error == old(error)
      ensures old(step) == 2 ==> step == 2
      ensures old(step) == 2 && ShowMismatch() ==> error == "Passwords do not match"
      ensures posted ==> error == if signupSucceeds then old(error) else "An error occurred during sign up"
    {
      posted := false;
      if step != 2 {
        step := step + 1;
        return;
      }
      if password != confirmPassword {
        error := "Passwords do not match";
        return;
      }
      posted := true;
      if !signupSucceeds {
        error := "An error occurred during sign up";
      }
    }

    /** The Previous button. */
    method Previous()
      requires Valid() && ShowPrevious()
      modifies this`step
      ensures Valid() && step == old(step) - 1
    {
      step := step - 1;
    }

    /** `handlePasswordChange`: store the password and rate it. */
    method HandlePasswordChange(pwd: string)
      requires Valid()
      modifies this`password, this`passwordStrength
      ensures Valid() && password == pwd
    {
      password := pwd;
      passwordStrength := CheckPasswordStrength(pwd);
    }

    method SetConfirmPassword(pwd: string)
      requires Valid()
      modifies this`confirmPassword
      ensures Valid() && confirmPassword == pwd
    {
      confirmPassword := pwd;
    }
  }
}
