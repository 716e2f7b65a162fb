/**
 * The learner's interests as the onboarding and settings pages handle them:
 * the fixed catalogue of interest categories, toggling a label in the
 * selection, and keeping only the stored interests the catalogue still offers.
 */
module Interests {
  /** A category of the catalogue: its name and the labels of its options. */
  datatype Category = Category(name: string, labels: seq<string>)

  /** The catalogue both pages show, in order (the icons are left out). */
  const Catalogue: seq<Category> := [
    Category("Музыка", ["Поп", "Рэп", "Рок", "EDM", "Джаз", "Инди"]),
    Category("Спорт", ["Футбол", "Бокс", "Бег", "Плавание", "Баскетбол", "Тренажеры"]),
    Category("Игры", ["Шутеры", "RPG", "MOBA", "Гонки", "Приключения"]),
    Category("Фильмы", ["Ужасы", "Аниме", "Комедия", "Драма", "Фантастика"]),
    Category("Еда", ["Пицца", "Суши", "Бургеры", "Десерты", "Азиатская кухня"]),
    Category("Технологии", ["ИИ", "Гаджеты", "Программирование", "VR/AR"]),
    Category("Путешествия", ["Горы", "Море", "Города", "Европа", "Азия"])
  ]

  /** `categories.flatMap(cat => cat.options.map(opt => opt.label))`. */
  function Labels(categories: seq<Category>): (r: seq<string>)
    ensures forall c, l :: c in categories && l in c.labels ==> l in r
    ensures forall l :: l in r ==> exists c :: c in categories && l in c.labels
  {
    if categories == [] then [] else categories[0].labels + Labels(categories[1..])
  }

  /** Every label the catalogue offers. */
  function KnownLabels(): (r: seq<string>)
    ensures forall l :: l in r <==> exists c :: c in Catalogue && l in c.labels
  {
    Labels(Catalogue)
  }

  /** The route both pages open once the learner has interests. */
  const Dashboard := "/dashboard"

  /** `s.filter(x => x !== label)`. */
  function Without(s: seq<string>, item: string): (r: seq<string>)
    ensures item !in r && |r| <= |s|
    decreases |s|
  {
    if s == [] then []
    else if s[0] == item then Without(s[1..], item)
    else [s[0]] + Without(s[1..], item)
  }

  /** `s.filter(x => known.includes(x))`. */
  function Keep(s: seq<string>, known: seq<string>): (r: seq<string>)
    ensures forall x :: x in r ==> x in known
    decreases |s|
  {
    if s == [] then []
    else if s[0] in known then [s[0]] + Keep(s[1..], known)
    else Keep(s[1..], known)
  }

  /** `toggleInterest`: remove every occurrence of a selected label, or append
      one that is not selected. */
  function Toggle(selected: seq<string>, item: string): (r: seq<string>)
    ensures item in r <==> item !in selected
  {
    if item in selected then Without(selected, item) else selected + [item]
  }

  /** `Without` keeps exactly the other labels. */
  lemma {:induction false} WithoutMembers(s: seq<string>, item: string)
    ensures forall x :: x in Without(s, item) <==> x in s && x != item
    decreases |s|
  {
    if s != [] {
      WithoutMembers(s[1..], item);
      assert s == [s[0]] + s[1..];
    }
  }

  /** `Without` filters each part of a sequence on its own, so the other
      labels keep their order. */
  lemma {:induction false} WithoutConcat(a: seq<string>, b: seq<string>, item: string)
    ensures Without(a + b, item) == Without(a, item) + Without(b, item)
    decreases |a|
  {
    if a == [] {
      assert a + b == b;
    } else {
      assert (a + b)[1..] == a[1..] + b;
      WithoutConcat(a[1..], b, item);
    }
  }

  /** Removing a label that is not there changes nothing. */
  lemma {:induction false} WithoutAbsent(s: seq<string>, item: string)
    requires item !in s
    ensures Without(s, item) == s
    decreases |s|
  {
    if s != [] {
      WithoutAbsent(s[1..], item);
    }
  }

  /** `Keep` keeps exactly the known labels. */
  lemma {:induction false} KeepMembers(s: seq<string>, known: seq<string>)
    ensures forall x :: x in Keep(s, known) <==> x in s && x in known
    decreases |s|
  {
    if s != [] {
      KeepMembers(s[1..], known);
      assert s == [s[0]] + s[1..];
    }
  }

  /** `Keep` filters each part of a sequence on its own, so the kept labels
      keep their order. */
  lemma {:induction false} KeepConcat(a: seq<string>, b: seq<string>, known: seq<string>)
    ensures Keep(a + b, known) == Keep(a, known) + Keep(b, known)
    decreases |a|
  {
    if a == [] {
      assert a + b == b;
    } else {
      assert (a + b)[1..] == a[1..] + b;
      KeepConcat(a[1..], b, known);
    }
  }

  /** `Keep` changes a list exactly when the list holds an unknown label, and
      then it is shorter: equal lengths mean nothing was removed. */
  lemma {:induction false} KeepChanges(s: seq<string>, known: seq<string>)
    ensures |Keep(s, known)| <= |s|
    ensures Keep(s, known) == s <==> (forall x :: x in s ==> x in known)
    ensures |Keep(s, known)| == |s| <==> Keep(s, known) == s
    decreases |s|
  {
    if s != [] {
      KeepChanges(s[1..], known);
      assert s == [s[0]] + s[1..];
      if s[0] !in known {
        assert Keep(s, known) != s;
      }
    }
  }

  /** Keeping the known labels twice is keeping them once. */
  lemma KeepIdempotent(s: seq<string>, known: seq<string>)
    ensures Keep(Keep(s, known), known) == Keep(s, known)
  {
    KeepMembers(s, known);
    KeepChanges(Keep(s, known), known);
  }

  /** Toggling a selected label removes it, and only it. */
  lemma ToggleSelected(selected: seq<string>, item: string)
    requires item in selected
    ensures item !in Toggle(selected, item)
    ensures forall x :: x != item ==> (x in Toggle(selected, item) <==> x in selected)
  {
    WithoutMembers(selected, item);
  }

  /** Toggling a label that is not selected appends it, and toggling it again
      restores the selection. */
  lemma ToggleTwice(selected: seq<string>, item: string)
    requires item !in selected
    ensures Toggle(selected, item) == selected + [item]
    ensures Toggle(Toggle(selected, item), item) == selected
  {
    WithoutConcat(selected, [item], item);
    WithoutAbsent(selected, item);
  }

  /** Toggling a selected label twice moves it to the end of the selection. */
  lemma ToggleTwiceSelected(selected: seq<string>, item: string)
    requires item in selected
    ensures Toggle(Toggle(selected, item), item) == Without(selected, item) + [item]
  {
    WithoutMembers(selected, item);
  }

  /** A selection of labels without repeats keeps that property under toggling. */
  lemma ToggleKeepsDistinct(selected: seq<string>, item: string)
    requires Distinct(selected)
    ensures Distinct(Toggle(selected, item))
  {
    if item in selected {
      WithoutDistinct(selected, item);
    }
  }

  predicate Distinct(s: seq<string>) {
    forall i, j :: 0 <= i < j < |s| ==> s[i] != s[j]
  }

  lemma {:induction false} WithoutDistinct(s: seq<string>, item: string)
    requires Distinct(s)
    ensures Distinct(Without(s, item))
    decreases |s|
  {
    if s != [] {
      assert Distinct(s[1..]);
      WithoutDistinct(s[1..], item);
      WithoutMembers(s[1..], item);
      assert s[0] !in s[1..];
    }
  }

  /** Toggling a catalogue label in a selection of catalogue labels leaves a
      selection of catalogue labels. */
  lemma ToggleKeepsKnown(selected: seq<string>, item: string, known: seq<string>)
    requires forall x :: x in selected ==> x in known
    requires item in known
    ensures forall x :: x in Toggle(selected, item) ==> x in known
  {
    WithoutMembers(selected, item);
  }

  /** The catalogue offers 36 labels in seven categories. */
  lemma CatalogueLabels()
    ensures |Catalogue| == 7 && |KnownLabels()| == 36
  {
  }
}
