/**
 * The `translations` tables of `client/src/lib/i18n.ts`. The three tables are flat and define
 * the same keys, so a key is a value of `TranslationKey` and each table is a total function
 * from keys to its strings. A string with `{name}` placeholders is written as the concatenation
 * of the text around them and the placeholders themselves.
 */
module Translations {
  import opened Wrappers

  /** The keys of the tables, in the order the tables list them. */
  datatype TranslationKey =
    AppName | Loading | Save | Cancel | Delete | Edit | View | Download | Upload | Search
    | NoResults | Required | MainMenu | Management | SearchDocuments | Dashboard | Employees
    | Applicants | AllDocuments | Reports | Notifications | Settings | DocumentManagement
    | DocumentManagementDesc | ExpiringDocumentsAlert | ViewDocuments | TotalDocuments
    | ValidDocuments | ExpiringSoon | Expired | RecentUploads | DocumentTypes | Templates
    | Approvals | DragAndDrop | BrowseFiles | SupportedFormats | UploadFiles | RecentDocuments
    | SortBy | DateNewest | Valid | ExpiresOn | ExpiredOn | UploadedOn | DocumentCategories
    | AddCategory | ViewAllDocuments | PersonalIdentification | Employment | EducationalSkills
    | Passport | IdCard | DriversLicense | EmploymentContract | OfferLetter | Nda | Certificates
    | Transcripts | Trainings | DocumentReminder | PassportExpiring | ValidStatus
    | ExpiringSoonStatus | ExpiredStatus | ErrorFetchingDocuments | ErrorUploadingDocument
    | ErrorDeletingDocument | Language | Theme | NotificationSettings | Security | Profile | Logout

  /** The table key a property name denotes, if any. */
  function KeyOf(name: string): (key: Option<TranslationKey>)
    ensures key.Some? ==> |name| > 0
  {
    match name
    case "appName" => Some(AppName)
    case "loading" => Some(Loading)
    case "save" => Some(Save)
    case "cancel" => Some(Cancel)
    case "delete" => Some(Delete)
    case "edit" => Some(Edit)
    case "view" => Some(View)
    case "download" => Some(Download)
    case "upload" => Some(Upload)
    case "search" => Some(Search)
    case "noResults" => Some(NoResults)
    case "required" => Some(Required)
    case "mainMenu" => Some(MainMenu)
    case "management" => Some(Management)
    case "searchDocuments" => Some(SearchDocuments)
    case "dashboard" => Some(Dashboard)
    case "employees" => Some(Employees)
    case "applicants" => Some(Applicants)
    case "allDocuments" => Some(AllDocuments)
    case "reports" => Some(Reports)
    case "notifications" => Some(Notifications)
    case "settings" => Some(Settings)
    case "documentManagement" => Some(DocumentManagement)
    case "documentManagementDesc" => Some(DocumentManagementDesc)
    case "expiringDocumentsAlert" => Some(ExpiringDocumentsAlert)
    case "viewDocuments" => Some(ViewDocuments)
    case "totalDocuments" => Some(TotalDocuments)
    case "validDocuments" => Some(ValidDocuments)
    case "expiringSoon" => Some(ExpiringSoon)
    case "expired" => Some(Expired)
    case "recentUploads" => Some(RecentUploads)
    case "documentTypes" => Some(DocumentTypes)
    case "templates" => Some(Templates)
    case "approvals" => Some(Approvals)
    case "dragAndDrop" => Some(DragAndDrop)
    case "browseFiles" => Some(BrowseFiles)
    case "supportedFormats" => Some(SupportedFormats)
    case "uploadFiles" => Some(UploadFiles)
    case "recentDocuments" => Some(RecentDocuments)
    case "sortBy" => Some(SortBy)
    case "dateNewest" => Some(DateNewest)
    case "valid" => Some(Valid)
    case "expiresOn" => Some(ExpiresOn)
    case "expiredOn" => Some(ExpiredOn)
    case "uploadedOn" => Some(UploadedOn)
    case "documentCategories" => Some(DocumentCategories)
    case "addCategory" => Some(AddCategory)
    case "viewAllDocuments" => Some(ViewAllDocuments)
    case "personalIdentification" => Some(PersonalIdentification)
    case "employment" => Some(Employment)
    case "educationalSkills" => Some(EducationalSkills)
    case "passport" => Some(Passport)
    case "idCard" => Some(IdCard)
    case "driversLicense" => Some(DriversLicense)
    case "employmentContract" => Some(EmploymentContract)
    case "offerLetter" => Some(OfferLetter)
    case "nda" => Some(Nda)
    case "certificates" => Some(Certificates)
    case "transcripts" => Some(Transcripts)
    case "trainings" => Some(Trainings)
    case "documentReminder" => Some(DocumentReminder)
    case "passportExpiring" => Some(PassportExpiring)
    case "validStatus" => Some(ValidStatus)
    case "expiringSoonStatus" => Some(ExpiringSoonStatus)
    case "expiredStatus" => Some(ExpiredStatus)
    case "errorFetchingDocuments" => Some(ErrorFetchingDocuments)
    case "errorUploadingDocument" => Some(ErrorUploadingDocument)
    case "errorDeletingDocument" => Some(ErrorDeletingDocument)
    case "language" => Some(Language)
    case "theme" => Some(Theme)
    case "notificationSettings" => Some(NotificationSettings)
    case "security" => Some(Security)
    case "profile" => Some(Profile)
    case "logout" => Some(Logout)
    case _ => None
  }

  /** The property name of a key. */
  function NameOf(key: TranslationKey): string {
    match key
    case AppName => "appName"
    case Loading => "loading"
    case Save => "save"
    case Cancel => "cancel"
    case Delete => "delete"
    case Edit => "edit"
    case View => "view"
    case Download => "download"
    case Upload => "upload"
    case Search => "search"
    case NoResults => "noResults"
    case Required => "required"
    case MainMenu => "mainMenu"
    case Management => "management"
    case SearchDocuments => "searchDocuments"
    case Dashboard => "dashboard"
    case Employees => "employees"
    case Applicants => "applicants"
    case AllDocuments => "allDocuments"
    case Reports => "reports"
    case Notifications => "notifications"
    case Settings => "settings"
    case DocumentManagement => "documentManagement"
    case DocumentManagementDesc => "documentManagementDesc"
    case ExpiringDocumentsAlert => "expiringDocumentsAlert"
    case ViewDocuments => "viewDocuments"
    case TotalDocuments => "totalDocuments"
    case ValidDocuments => "validDocuments"
    case ExpiringSoon => "expiringSoon"
    case Expired => "expired"
    case RecentUploads => "recentUploads"
    case DocumentTypes => "documentTypes"
    case Templates => "templates"
    case Approvals => "approvals"
    case DragAndDrop => "dragAndDrop"
    case BrowseFiles => "browseFiles"
    case SupportedFormats => "supportedFormats"
    case UploadFiles => "uploadFiles"
    case RecentDocuments => "recentDocuments"
    case SortBy => "sortBy"
    case DateNewest => "dateNewest"
    case Valid => "valid"
    case ExpiresOn => "expiresOn"
    case ExpiredOn => "expiredOn"
    case UploadedOn => "uploadedOn"
    case DocumentCategories => "documentCategories"
    case AddCategory => "addCategory"
    case ViewAllDocuments => "viewAllDocuments"
    case PersonalIdentification => "personalIdentification"
    case Employment => "employment"
    case EducationalSkills => "educationalSkills"
    case Passport => "passport"
    case IdCard => "idCard"
    case DriversLicense => "driversLicense"
    case EmploymentContract => "employmentContract"
    case OfferLetter => "offerLetter"
    case Nda => "nda"
    case Certificates => "certificates"
    case Transcripts => "transcripts"
    case Trainings => "trainings"
    case DocumentReminder => "documentReminder"
    case PassportExpiring => "passportExpiring"
    case ValidStatus => "validStatus"
    case ExpiringSoonStatus => "expiringSoonStatus"
    case ExpiredStatus => "expiredStatus"
    case ErrorFetchingDocuments => "errorFetchingDocuments"
    case ErrorUploadingDocument => "errorUploadingDocument"
    case ErrorDeletingDocument => "errorDeletingDocument"
    case Language => "language"
    case Theme => "theme"
    case NotificationSettings => "notificationSettings"
    case Security => "security"
    case Profile => "profile"
    case Logout => "logout"
  }

  /** The English table. */
  function EnglishText(key: TranslationKey): (text: string)
    ensures |text| > 0
  {
    match key
    case AppName => "Erada HR & Document System"
    case Loading => "Loading..."
    case Save => "Save"
    case Cancel => "Cancel"
    case Delete => "Delete"
    case Edit => "Edit"
    case View => "View"
    case Download => "Download"
    case Upload => "Upload"
    case Search => "Search"
    case NoResults => "No results found"
    case Required => "This field is required"
    case MainMenu => "Main Menu"
    case Management => "Management"
    case SearchDocuments => "Search documents..."
    case Dashboard => "Dashboard"
    case Employees => "Employees"
    case Applicants => "Applicants"
    case AllDocuments => "All Documents"
    case Reports => "Reports"
    case Notifications => "Notifications"
    case Settings => "Settings"
    case DocumentManagement => "Document Management"
    case DocumentManagementDesc => "Organize, track and manage employee and applicant documents"
    case ExpiringDocumentsAlert => "You have " + "{count}" + " documents expiring in the next 30 days."
    case ViewDocuments => "View documents"
    case TotalDocuments => "Total Documents"
    case ValidDocuments => "Valid Documents"
    case ExpiringSoon => "Expiring Soon"
    case Expired => "Expired"
    case RecentUploads => "Recent Uploads"
    case DocumentTypes => "Document Types"
    case Templates => "Templates"
    case Approvals => "Approvals"
    case DragAndDrop => "Drag and drop files here"
    case BrowseFiles => "or click to browse from your computer"
    case SupportedFormats => "Supported formats: PDF, DOCX, JPG, PNG (max 10MB)"
    case UploadFiles => "Upload Files"
    case RecentDocuments => "Recent Documents"
    case SortBy => "Sort by:"
    case DateNewest => "Date (Newest)"
    case Valid => "Valid"
    case ExpiresOn => "Expires: " + "{date}"
    case ExpiredOn => "Expired: " + "{date}"
    case UploadedOn => "Uploaded: " + "{date}"
    case DocumentCategories => "Document Categories"
    case AddCategory => "Add Category"
    case ViewAllDocuments => "View all documents"
    case PersonalIdentification => "Personal Identification"
    case Employment => "Employment"
    case EducationalSkills => "Educational & Skills"
    case Passport => "Passport"
    case IdCard => "ID Card"
    case DriversLicense => "Driver's License"
    case EmploymentContract => "Employment Contract"
    case OfferLetter => "Offer Letter"
    case Nda => "NDA"
    case Certificates => "Certificates"
    case Transcripts => "Transcripts"
    case Trainings => "Trainings"
    case DocumentReminder => "Document Reminder"
    case PassportExpiring => "{name}" + "'s passport is expiring in " + "{days}" + " days. Request renewal now."
    case ValidStatus => "Valid"
    case ExpiringSoonStatus => "Expiring Soon"
    case ExpiredStatus => "Expired"
    case ErrorFetchingDocuments => "Error fetching documents"
    case ErrorUploadingDocument => "Error uploading document"
    case ErrorDeletingDocument => "Error deleting document"
    case Language => "Language"
    case Theme => "Theme"
    case NotificationSettings => "Notifications"
    case Security => "Security"
    case Profile => "Profile"
    case Logout => "Logout"
  }

  /** The Arabic table. */
  function ArabicText(key: TranslationKey): (text: string)
    ensures |text| > 0
  {
    match key
    case AppName => "نظام إرادة للموارد البشرية والمستندات"
    case Loading => "جاري التحميل..."
    case Save => "حفظ"
    case Cancel => "إلغاء"
    case Delete => "حذف"
    case Edit => "تعديل"
    case View => "عرض"
    case Download => "تنزيل"
    case Upload => "رفع"
    case Search => "بحث"
    case NoResults => "لم يتم العثور على نتائج"
    case Required => "هذا الحقل مطلوب"
    case MainMenu => "القائمة الرئيسية"
    case Management => "الإدارة"
    case SearchDocuments => "البحث في المستندات..."
    case Dashboard => "لوحة التحكم"
    case Employees => "الموظفين"
    case Applicants => "المتقدمين"
    case AllDocuments => "جميع المستندات"
    case Reports => "التقارير"
    case Notifications => "الإشعارات"
    case Settings => "الإعدادات"
    case DocumentManagement => "إدارة المستندات"
    case DocumentManagementDesc => "تنظيم وتتبع وإدارة مستندات الموظفين والمتقدمين"
    case ExpiringDocumentsAlert => "لديك " + "{count}" + " مستندات ستنتهي صلاحيتها في الثلاثين يومًا القادمة."
    case ViewDocuments => "عرض المستندات"
    case TotalDocuments => "إجمالي المستندات"
    case ValidDocuments => "مستندات سارية"
    case ExpiringSoon => "ستنتهي قريبًا"
    case Expired => "منتهية الصلاحية"
    case RecentUploads => "التحميلات الحديثة"
    case DocumentTypes => "أنواع المستندات"
    case Templates => "القوالب"
    case Approvals => "الموافقات"
    case DragAndDrop => "اسحب وأفلت الملفات هنا"
    case BrowseFiles => "أو انقر للتصفح من جهاز الكمبيوتر الخاص بك"
    case SupportedFormats => "الصيغ المدعومة: PDF، DOCX، JPG، PNG (بحد أقصى 10 ميجابايت)"
    case UploadFiles => "تحميل الملفات"
    case RecentDocuments => "المستندات الحديثة"
    case SortBy => "ترتيب حسب:"
    case DateNewest => "التاريخ (الأحدث)"
    case Valid => "ساري"
    case ExpiresOn => "تنتهي الصلاحية: " + "{date}"
    case ExpiredOn => "انتهت الصلاحية: " + "{date}"
    case UploadedOn => "تم التحميل: " + "{date}"
    case DocumentCategories => "فئات المستندات"
    case AddCategory => "إضافة فئة"
    case ViewAllDocuments => "عرض جميع المستندات"
    case PersonalIdentification => "الهوية الشخصية"
    case Employment => "التوظيف"
    case EducationalSkills => "التعليم والمهارات"
    case Passport => "جواز السفر"
    case IdCard => "بطاقة الهوية"
    case DriversLicense => "رخصة القيادة"
    case EmploymentContract => "عقد العمل"
    case OfferLetter => "خطاب العرض"
    case Nda => "اتفاقية السرية"
    case Certificates => "الشهادات"
    case Transcripts => "كشوف الدرجات"
    case Trainings => "التدريبات"
    case DocumentReminder => "تذكير بالمستند"
    case PassportExpiring => "جواز سفر " + "{name}" + " سينتهي خلال " + "{days}" + " يومًا. اطلب التجديد الآن."
    case ValidStatus => "ساري"
    case ExpiringSoonStatus => "ستنتهي قريبًا"
    case ExpiredStatus => "منتهي الصلاحية"
    case ErrorFetchingDocuments => "خطأ في جلب المستندات"
    case ErrorUploadingDocument => "خطأ في رفع المستند"
    case ErrorDeletingDocument => "خطأ في حذف المستند"
    case Language => "اللغة"
    case Theme => "الثيم"
    case NotificationSettings => "الإشعارات"
    case Security => "الأمان"
    case Profile => "الملف الشخصي"
    case Logout => "تسجيل الخروج"
  }

  /** The Hindi table. */
  function HindiText(key: TranslationKey): (text: string)
    ensures |text| > 0
  {
    match key
    case AppName => "एराडा एचआर और दस्तावेज प्रणाली"
    case Loading => "लोड हो रहा है..."
    case Save => "सहेजें"
    case Cancel => "रद्द करें"
    case Delete => "हटाएं"
    case Edit => "संपादित करें"
    case View => "देखें"
    case Download => "डाउनलोड करें"
    case Upload => "अपलोड"
    case Search => "खोज"
    case NoResults => "कोई परिणाम नहीं मिला"
    case Required => "यह फ़ील्ड आवश्यक है"
    case MainMenu => "मुख्य मेनू"
    case Management => "प्रबंधन"
    case SearchDocuments => "दस्तावेज़ खोजें..."
    case Dashboard => "डैशबोर्ड"
    case Employees => "कर्मचारी"
    case Applicants => "आवेदक"
    case AllDocuments => "सभी दस्तावेज़"
    case Reports => "रिपोर्ट"
    case Notifications => "सूचनाएँ"
    case Settings => "सेटिंग्स"
    case DocumentManagement => "दस्तावेज़ प्रबंधन"
    case DocumentManagementDesc => "कर्मचारियों और आवेदकों के दस्तावेज़ों को व्यवस्थित, ट्रैक और प्रबंधित करें"
    case ExpiringDocumentsAlert => "आपके पास " + "{count}" + " दस्तावेज़ हैं जो अगले 30 दिनों में समाप्त हो रहे हैं।"
    case ViewDocuments => "दस्तावेज़ देखें"
    case TotalDocuments => "कुल दस्तावेज़"
    case ValidDocuments => "वैध दस्तावेज़"
    case ExpiringSoon => "जल्द समाप्त होने वाले"
    case Expired => "समाप्त"
    case RecentUploads => "हाल के अपलोड"
    case DocumentTypes => "दस्तावेज़ प्रकार"
    case Templates => "टेम्पलेट"
    case Approvals => "स्वीकृतियां"
    case DragAndDrop => "फ़ाइलों को यहां खींचें और छोड़ें"
    case BrowseFiles => "या अपने कंप्यूटर से ब्राउज़ करने के लिए क्लिक करें"
    case SupportedFormats => "समर्थित प्रारूप: PDF, DOCX, JPG, PNG (अधिकतम 10MB)"
    case UploadFiles => "फ़ाइलें अपलोड करें"
    case RecentDocuments => "हाल के दस्तावेज़"
    case SortBy => "क्रमबद्ध करें:"
    case DateNewest => "तिथि (नवीनतम)"
    case Valid => "वैध"
    case ExpiresOn => "समाप्ति: " + "{date}"
    case ExpiredOn => "समाप्त: " + "{date}"
    case UploadedOn => "अपलोड किया गया: " + "{date}"
    case DocumentCategories => "दस्तावेज़ श्रेणियां"
    case AddCategory => "श्रेणी जोड़ें"
    case ViewAllDocuments => "सभी दस्तावेज़ देखें"
    case PersonalIdentification => "व्यक्तिगत पहचान"
    case Employment => "रोज़गार"
    case EducationalSkills => "शैक्षिक और कौशल"
    case Passport => "पासपोर्ट"
    case IdCard => "पहचान पत्र"
    case DriversLicense => "ड्राइविंग लाइसेंस"
    case EmploymentContract => "रोज़गार अनुबंध"
    case OfferLetter => "ऑफर लेटर"
    case Nda => "गोपनीयता समझौता"
    case Certificates => "प्रमाणपत्र"
    case Transcripts => "अंक-तालिका"
    case Trainings => "प्रशिक्षण"
    case DocumentReminder => "दस्तावेज़ रिमाइंडर"
    case PassportExpiring => "{name}" + " का पासपोर्ट " + "{days}" + " दिनों में समाप्त हो रहा है। अभी नवीनीकरण का अनुरोध करें।"
    case ValidStatus => "वैध"
    case ExpiringSoonStatus => "जल्द समाप्त होने वाला"
    case ExpiredStatus => "समाप्त"
    case ErrorFetchingDocuments => "दस्तावेज़ प्राप्त करने में त्रुटि"
    case ErrorUploadingDocument => "दस्तावेज़ अपलोड करने में त्रुटि"
    case ErrorDeletingDocument => "दस्तावेज़ हटाने में त्रुटि"
    case Language => "भाषा"
    case Theme => "थीम"
    case NotificationSettings => "सूचनाएँ"
    case Security => "सुरक्षा"
    case Profile => "प्रोफ़ाइल"
    case Logout => "लॉग आउट"
  }
}
