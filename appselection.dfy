/** The app-selection screen: the add-app form with its validation, removal
    after confirmation, the tracking switch of each entry, the split of the
    catalogue into active and inactive apps, and the icon and colour of each
    category. */
module AppSelection {
  import opened Types
  import opened Lists
  import opened Text
  import opened Store

  /** One row of the category picker. */
  datatype CategoryInfo = CategoryInfo(id: string, title: string, icon: string)

  /** The category picker, in the order it is shown. */
  const Categories: seq<CategoryInfo> := [
    CategoryInfo("social", "Social Media", "people"),
    CategoryInfo("entertainment", "Entertainment", "play"),
    CategoryInfo("games", "Games", "game-controller"),
    CategoryInfo("shopping", "Shopping", "cart"),
    CategoryInfo("other", "Other", "apps")]

  function HasId(category: string): CategoryInfo -> bool {
    (c: CategoryInfo) => c.id == category
  }

  /** `getCategoryIcon`: the icon listed for the category, and 'apps' for a
      string that names no category. */
  function CategoryIcon(category: string): (icon: string)
    ensures category == "social" ==> icon == "people"
    ensures category == "entertainment" ==> icon == "play"
    ensures category == "games" ==> icon == "game-controller"
    ensures category == "shopping" ==> icon == "cart"
    ensures category == "other" ==> icon == "apps"
    ensures category !in {"social", "entertainment", "games", "shopping", "other"} ==> icon == "apps"
  {
    match Find(Categories, HasId(category))
    case Some(c) => if c.icon != "" then c.icon else "apps"
    case None => "apps"
  }

  /** `getCategoryColor`: a colour class per category, grey for anything else. */
  function CategoryColor(category: string): (color: string)
    ensures category == "social" ==> color == "bg-blue-500"
    ensures category == "entertainment" ==> color == "bg-purple-500"
    ensures category == "games" ==> color == "bg-green-500"
    ensures category == "shopping" ==> color == "bg-orange-500"
    ensures color == "bg-gray-500" <==> category !in {"social", "entertainment", "games", "shopping"}
  {
    match category
    case "social" => "bg-blue-500"
    case "entertainment" => "bg-purple-500"
    case "games" => "bg-green-500"
    case "shopping" => "bg-orange-500"
    case _ => "bg-gray-500"
  }

  /** Distinct categories get distinct colours, except that 'other' shares the
      grey of an unknown category. */
  lemma CategoryColorsDistinct(c: Category, d: Category)
    ensures c != d ==> CategoryColor(CategoryId(c)) != CategoryColor(CategoryId(d))
    ensures CategoryColor(CategoryId(Other)) == CategoryColor("")
  {
  }

  /** The callback of the inactive list. */
  predicate IsDisabled(app: TrackedApp) {
    !app.isEnabled
  }

  /** `trackedApps.filter(app => !app.isEnabled)`: the inactive apps, in catalogue order. */
  function DisabledApps(apps: seq<TrackedApp>): (r: seq<TrackedApp>)
    ensures forall a :: a in r <==> a in apps && !a.isEnabled
  {
    Filter(apps, IsDisabled)
  }

  /** The active and inactive lists split the catalogue: each entry is in
      exactly one of them, as often as in the catalogue, and the two lengths
      add up to the catalogue's. */
  lemma ActiveInactivePartition(apps: seq<TrackedApp>)
    ensures |EnabledApps(apps)| + |DisabledApps(apps)| == |apps|
    ensures multiset(EnabledApps(apps)) + multiset(DisabledApps(apps)) == multiset(apps)
    ensures forall a :: a in apps ==> (a in EnabledApps(apps) <==> a !in DisabledApps(apps))
  {
    FilterPartition(apps, IsEnabled, IsDisabled);
  }

  /** Both lists keep catalogue order: each works part by part. */
  lemma ActiveInactiveKeepOrder(a: seq<TrackedApp>, b: seq<TrackedApp>)
    ensures EnabledApps(a + b) == EnabledApps(a) + EnabledApps(b)
    ensures DisabledApps(a + b) == DisabledApps(a) + DisabledApps(b)
  {
    FilterAppend(a, b, IsEnabled);
    FilterAppend(a, b, IsDisabled);
  }

  /** The entry the add form creates from its fields. */
  function NewApp(appName: string, packageName: string, category: Category): (app: TrackedApp)
    ensures app.isEnabled && app.icon.None? && app.category == category
    ensures app.appName == Trim(appName) && app.packageName == Trim(packageName)
    ensures Trimmed(app.appName) && Trimmed(app.packageName)
  {
    TrackedApp(Trim(packageName), Trim(appName), None, true, category)
  }

  class AppSelectionScreen {
    const store: AppStore
    var showAddForm: bool
    var newAppName: string
    var newPackageName: string
    var newCategory: Category

    /** The form starts hidden and empty, with category 'other'. */
    constructor (store: AppStore)
      ensures this.store == store
      ensures !showAddForm && newAppName == "" && newPackageName == "" && newCategory == Other
    {
      this.store := store;
      showAddForm := false;
      newAppName := "";
      newPackageName := "";
      newCategory := Other;
    }

    /** The header of the add form shows or hides it. */
    method ToggleAddForm()
      modifies this`showAddForm
      ensures showAddForm == !old(showAddForm)
    {
      showAddForm := !showAddForm;
    }

    method EditAppName(text: string)
      modifies this`newAppName
      ensures newAppName == text
    {
      newAppName := text;
    }

    method EditPackageName(text: string)
      modifies this`newPackageName
      ensures newPackageName == text
    {
      newPackageName := text;
    }

    method SelectCategory(c: Category)
      modifies this`newCategory
      ensures newCategory == c
    {
      newCategory := c;
    }

    /** `handleAddApp`: when either field is blank once trimmed, nothing
        changes; otherwise the trimmed entry, enabled and in the selected
        category, is appended to the catalogue and the form is reset. */
    method HandleAddApp() returns (added: bool)
      modifies store`trackedApps, this`newAppName, this`newPackageName, this`newCategory, this`showAddForm
      ensures added <==> Trim(old(newAppName)) != "" && Trim(old(newPackageName)) != ""
      ensures !added ==> store.trackedApps == old(store.trackedApps)
      ensures !added ==> newAppName == old(newAppName) && newPackageName == old(newPackageName)
      ensures !added ==> newCategory == old(newCategory) && showAddForm == old(showAddForm)
      ensures added ==> (store.trackedApps == old(store.trackedApps)
        + [TrackedApp(Trim(old(newPackageName)), Trim(old(newAppName)), None, true, old(newCategory))])
      ensures added ==> newAppName == "" && newPackageName == "" && newCategory == Other && !showAddForm
    {
      if Trim(newAppName) == "" || Trim(newPackageName) == "" {
        return false;
      }
      var app := NewApp(newAppName, newPackageName, newCategory);
      store.AddTrackedApp(app);
      newAppName := "";
      newPackageName := "";
      newCategory := Other;
      showAddForm := false;
      added := true;
    }

    /** `handleRemoveApp`: once confirmed, every entry of the package is removed. */
    method HandleRemoveApp(p: string, confirmed: bool)
      modifies store`trackedApps
      ensures confirmed ==> store.trackedApps == WithoutPackage(old(store.trackedApps), p)
      ensures !confirmed ==> store.trackedApps == old(store.trackedApps)
    {
      if confirmed {
        store.RemoveTrackedApp(p);
      }
    }

    /** The tracking switch of an entry, in either list. */
    method ToggleApp(p: string)
      modifies store`trackedApps
      ensures store.trackedApps == Toggled(old(store.trackedApps), p)
    {
      store.ToggleAppTracking(p);
    }
  }
}
